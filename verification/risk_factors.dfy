/**
 * The numeric steps of scripts/risk_factors.py on the table of regions:
 * the two death indices scaled to a total of 100000 (lines 76-84), the
 * removal of rows without a count (line 85) and the cumulative curve of
 * inhabitants against deaths with the rows sorted by the first index
 * (lines 98-101).
 *
 * A cell may be NaN (a failed merge or an unparsable count), written
 * `None`. pandas' sums and cumulative sums skip NaN cells; products with a
 * NaN are NaN.
 */
module RiskFactors {
  import opened Results

  type Cell = Option<real>

  /** The columns of the region table the steps use. */
  datatype Region = Region(deathrate: Cell, deathPerMio: Cell, count: Cell, index1: Cell, index2: Cell)

  datatype Col = Deathrate | DeathPerMio | Count | Index1 | Index2

  function Get(r: Region, col: Col): Cell
  {
    match col
    case Deathrate => r.deathrate
    case DeathPerMio => r.deathPerMio
    case Count => r.count
    case Index1 => r.index1
    case Index2 => r.index2
  }

  /** Overwrites one cell of a row. */
  function Put(r: Region, col: Col, v: Cell): (r': Region)
    ensures Get(r', col) == v
    ensures forall other :: other != col ==> Get(r', other) == Get(r, other)
  {
    match col
    case Deathrate => r.(deathrate := v)
    case DeathPerMio => r.(deathPerMio := v)
    case Count => r.(count := v)
    case Index1 => r.(index1 := v)
    case Index2 => r.(index2 := v)
  }

  function Column(rows: seq<Region>, col: Col): (c: seq<Cell>)
    ensures |c| == |rows| && forall j :: 0 <= j < |rows| ==> c[j] == Get(rows[j], col)
  {
    seq(|rows|, j requires 0 <= j < |rows| => Get(rows[j], col))
  }

  /** What a NaN cell contributes to a sum that skips NaN. */
  function Value(x: Cell): real
  {
    if x.Some? then x.value else 0.0
  }

  /** `np.sum` of a Series: the sum of the cells that are not NaN. */
  function PresentSum(xs: seq<Cell>): real
  {
    if |xs| == 0 then 0.0 else PresentSum(xs[..|xs| - 1]) + Value(xs[|xs| - 1])
  }

  /** The product of two cells; NaN if either is NaN. */
  function Product(a: Cell, b: Cell): (p: Cell)
    ensures p.Some? <==> a.Some? && b.Some?
  {
    if a.Some? && b.Some? then Some(a.value * b.value) else None
  }

  /** `rate * count`, the column of lines 76-77 (and 81-82). */
  function Products(rows: seq<Region>, rateCol: Col): (p: seq<Cell>)
    ensures |p| == |rows|
    ensures forall j :: 0 <= j < |rows| ==> p[j] == Product(Get(rows[j], rateCol), Get(rows[j], Count))
  {
    seq(|rows|, j requires 0 <= j < |rows| => Product(Get(rows[j], rateCol), Get(rows[j], Count)))
  }

  /** One cell of lines 78-79 (and 83-84): the cell times 100000 over the
      column total; NaN stays NaN. */
  function ScaledCell(x: Cell, total: real): (y: Cell)
    requires total != 0.0
    ensures y.Some? <==> x.Some?
  {
    if x.Some? then Some(x.value * 100000.0 / total) else None
  }

  /** A column with every cell scaled by `ScaledCell`. */
  function Normalize(p: seq<Cell>, total: real): (idx: seq<Cell>)
    requires total != 0.0
    ensures |idx| == |p|
    ensures forall j :: 0 <= j < |p| ==> idx[j] == ScaledCell(p[j], total)
  {
    if |p| == 0 then [] else Normalize(p[..|p| - 1], total) + [ScaledCell(p[|p| - 1], total)]
  }

  /** The index column: the products `rate * count`, each times 100000 over
      the NaN-skipping sum of all products. */
  function DeathIndex(rows: seq<Region>, rateCol: Col): (idx: seq<Cell>)
    requires PresentSum(Products(rows, rateCol)) != 0.0
    ensures |idx| == |rows|
    ensures forall j :: 0 <= j < |rows| ==>
      (idx[j].Some? <==> Get(rows[j], rateCol).Some? && Get(rows[j], Count).Some?)
  {
    var p := Products(rows, rateCol);
    Normalize(p, PresentSum(p))
  }

  lemma AddScaled(a: real, b: real, t: real)
    requires t != 0.0
    ensures a * 100000.0 / t + b * 100000.0 / t == (a + b) * 100000.0 / t
  {
  }

  lemma SelfRatio(t: real)
    requires t != 0.0
    ensures t * 100000.0 / t == 100000.0
  {
  }

  /** Scaling every cell scales the NaN-skipping sum alike. */
  lemma {:induction false} NormalizeSum(p: seq<Cell>, total: real)
    requires total != 0.0
    ensures PresentSum(Normalize(p, total)) == PresentSum(p) * 100000.0 / total
  {
    if |p| > 0 {
      var n := |p| - 1;
      NormalizeSum(p[..n], total);
      var s := Normalize(p[..n], total);
      var c := ScaledCell(p[n], total);
      assert (s + [c])[..n] == s;
      assert PresentSum(Normalize(p, total)) == PresentSum(s) + Value(c);
      AddScaled(PresentSum(p[..n]), Value(p[n]), total);
    }
  }

  /** Each index column sums to 100000 (skipping NaN cells). */
  lemma DeathIndexTotal(rows: seq<Region>, rateCol: Col)
    requires PresentSum(Products(rows, rateCol)) != 0.0
    ensures PresentSum(DeathIndex(rows, rateCol)) == 100000.0
  {
    NormalizeTotal(Products(rows, rateCol));
  }

  /** A column normalised by its own NaN-skipping sum sums to 100000. */
  lemma NormalizeTotal(p: seq<Cell>)
    requires PresentSum(p) != 0.0
    ensures PresentSum(Normalize(p, PresentSum(p))) == 100000.0
  {
    NormalizeSum(p, PresentSum(p));
    SelfRatio(PresentSum(p));
  }

  /** `np.sum(regions[col])`, left to right. */
  method ColumnSum(regions: array<Region>, col: Col) returns (total: real)
    ensures total == PresentSum(Column(regions[..], col))
  {
    total := 0.0;
    for j := 0 to regions.Length
      invariant total == PresentSum(Column(regions[..j], col))
    {
      assert Column(regions[..j + 1], col)[..j] == Column(regions[..j], col);
      total := total + Value(Get(regions[j], col));
    }
    assert regions[..regions.Length] == regions[..];
  }

  /** Lines 76-79 (with `rateCol` the long-term death rate and `target` the
      first index) and 81-84 (the reported deaths per million and the second
      index): the column is overwritten first with the products, then with
      the products scaled to a total of 100000. */
  method ScaleIndex(regions: array<Region>, rateCol: Col, target: Col)
    requires PresentSum(Products(regions[..], rateCol)) != 0.0
    modifies regions
    ensures forall j :: 0 <= j < regions.Length ==>
      regions[j] == Put(old(regions[j]), target, DeathIndex(old(regions[..]), rateCol)[j])
    ensures PresentSum(Column(regions[..], target)) == 100000.0
  {
    ghost var rows := regions[..];
    WriteProducts(regions, rateCol, target);
    assert Column(regions[..], target) == Products(rows, rateCol);
    NormalizeColumn(regions, target);
    forall j | 0 <= j < regions.Length
      ensures regions[j] == Put(rows[j], target, DeathIndex(rows, rateCol)[j])
    {
      PutPut(rows[j], target, Products(rows, rateCol)[j], DeathIndex(rows, rateCol)[j]);
    }
    assert Column(regions[..], target) == DeathIndex(rows, rateCol);
    DeathIndexTotal(rows, rateCol);
  }

  /** Lines 76-77 (and 81-82): the target column becomes `rate * count`. */
  method WriteProducts(regions: array<Region>, rateCol: Col, target: Col)
    modifies regions
    ensures forall j :: 0 <= j < regions.Length ==>
      regions[j] == Put(old(regions[j]), target, Products(old(regions[..]), rateCol)[j])
  {
    ghost var rows := regions[..];
    for j := 0 to regions.Length
      invariant forall k :: 0 <= k < j ==> regions[k] == Put(rows[k], target, Products(rows, rateCol)[k])
      invariant forall k :: j <= k < regions.Length ==> regions[k] == rows[k]
    {
      regions[j] := Put(regions[j], target, Product(Get(regions[j], rateCol), Get(regions[j], Count)));
    }
  }

  /** Lines 78-79 (and 83-84): the target column, scaled by 100000 over its
      own NaN-skipping sum. */
  method NormalizeColumn(regions: array<Region>, target: Col)
    requires PresentSum(Column(regions[..], target)) != 0.0
    modifies regions
    ensures forall j :: 0 <= j < regions.Length ==>
      regions[j] == Put(old(regions[j]), target,
                        Normalize(Column(old(regions[..]), target), PresentSum(Column(old(regions[..]), target)))[j])
  {
    ghost var rows := regions[..];
    ghost var col := Column(rows, target);
    var total := ColumnSum(regions, target);
    ghost var idx := Normalize(col, total);
    for j := 0 to regions.Length
      invariant forall k :: 0 <= k < j ==> regions[k] == Put(rows[k], target, idx[k])
      invariant forall k :: j <= k < regions.Length ==> regions[k] == rows[k]
    {
      var x := Get(regions[j], target);
      assert x == col[j];
      regions[j] := Put(regions[j], target, ScaledCell(x, total));
    }
  }

  lemma PutPut(r: Region, col: Col, v: Cell, w: Cell)
    ensures Put(Put(r, col, v), col, w) == Put(r, col, w)
  {
  }

  /** Lines 76-84: both indices, one after the other. The second reads only
      the reported rate and the count, which the first leaves alone. */
  method DeathIndices(regions: array<Region>)
    requires PresentSum(Products(regions[..], Deathrate)) != 0.0
    requires PresentSum(Products(regions[..], DeathPerMio)) != 0.0
    modifies regions
    ensures forall j :: 0 <= j < regions.Length ==>
      regions[j] == old(regions[j]).(index1 := DeathIndex(old(regions[..]), Deathrate)[j],
                                      index2 := DeathIndex(old(regions[..]), DeathPerMio)[j])
    ensures PresentSum(Column(regions[..], Index1)) == 100000.0
    ensures PresentSum(Column(regions[..], Index2)) == 100000.0
  {
    ghost var rows := regions[..];
    ScaleIndex(regions, Deathrate, Index1);
    assert Products(regions[..], DeathPerMio) == Products(rows, DeathPerMio);
    ghost var mid := regions[..];
    ScaleIndex(regions, DeathPerMio, Index2);
    assert Column(regions[..], Index1) == Column(mid, Index1);
  }

  /** Line 85: the rows whose count is not NaN, in their order. */
  function KeepCounted(rows: seq<Region>): (kept: seq<Region>)
    ensures forall r :: r in kept <==> r in rows && r.count.Some?
    ensures forall r {:trigger multiset(kept)[r]} :: multiset(kept)[r] == if r.count.Some? then multiset(rows)[r] else 0
  {
    if |rows| == 0 then []
    else
      var n := |rows| - 1;
      assert rows == rows[..n] + [rows[n]];
      KeepCounted(rows[..n]) + (if rows[n].count.Some? then [rows[n]] else [])
  }

  /** The positions the mask of line 85 selects, in ascending order. */
  function CountedAt(rows: seq<Region>): (at: seq<nat>)
    ensures forall k :: 0 <= k < |at| ==> at[k] < |rows| && rows[at[k]].count.Some?
    ensures forall k, k' :: 0 <= k < k' < |at| ==> at[k] < at[k']
    ensures forall j :: 0 <= j < |rows| && rows[j].count.Some? ==> j in at
  {
    if |rows| == 0 then []
    else
      var n := |rows| - 1;
      CountedAt(rows[..n]) + (if rows[n].count.Some? then [n] else [])
  }

  /** The k-th kept row is the row at the k-th selected position: the
      filter keeps every counted row, duplicates included, in table
      order. */
  lemma {:induction false} KeepCountedOrder(rows: seq<Region>)
    ensures |KeepCounted(rows)| == |CountedAt(rows)|
    ensures forall k :: 0 <= k < |KeepCounted(rows)| ==> KeepCounted(rows)[k] == rows[CountedAt(rows)[k]]
  {
    if |rows| > 0 {
      var n := |rows| - 1;
      KeepCountedOrder(rows[..n]);
      var kept, at := KeepCounted(rows[..n]), CountedAt(rows[..n]);
      forall k | 0 <= k < |kept|
        ensures kept[k] == rows[at[k]]
      {
        assert rows[..n][at[k]] == rows[at[k]];
      }
      if rows[n].count.Some? {
        assert KeepCounted(rows) == kept + [rows[n]] && CountedAt(rows) == at + [n];
      } else {
        assert KeepCounted(rows) == kept && CountedAt(rows) == at;
      }
    }
  }

  /** Dropping rows whose count is NaN leaves the total of a column that is
      NaN wherever the count is. */
  lemma {:induction false} KeepCountedSum(rows: seq<Region>, col: Col)
    requires forall j :: 0 <= j < |rows| && rows[j].count.None? ==> Get(rows[j], col).None?
    ensures PresentSum(Column(KeepCounted(rows), col)) == PresentSum(Column(rows, col))
  {
    if |rows| > 0 {
      var n := |rows| - 1;
      KeepCountedSum(rows[..n], col);
      assert rows == rows[..n] + [rows[n]];
      KeepOneSum(KeepCounted(rows[..n]), rows[..n], rows[n], col);
    }
  }

  /** The inductive step of `KeepCountedSum`: appending one row to the
      table, and to the kept rows exactly when its count is present. */
  lemma KeepOneSum(kept: seq<Region>, prefix: seq<Region>, last: Region, col: Col)
    requires PresentSum(Column(kept, col)) == PresentSum(Column(prefix, col))
    requires last.count.None? ==> Get(last, col).None?
    ensures PresentSum(Column(kept + (if last.count.Some? then [last] else []), col))
      == PresentSum(Column(prefix + [last], col))
  {
    var tail := if last.count.Some? then [last] else [];
    ColumnJoin(kept, tail, col);
    ColumnJoin(prefix, [last], col);
    PresentSumAppend(Column(kept, col), Column(tail, col));
    PresentSumAppend(Column(prefix, col), Column([last], col));
    assert [Get(last, col)][..0] == [];
    assert Column([last], col) == [Get(last, col)];
  }

  /** After lines 76-79, the rows kept by line 85 still carry the whole
      index-1 total of 100000: a row without a count has a NaN product and
      so a NaN index. This is the total the cumulative death curve ends
      at. */
  lemma CountedIndexTotal(rows: seq<Region>, indexed: seq<Region>)
    requires PresentSum(Products(rows, Deathrate)) != 0.0
    requires Column(indexed, Index1) == DeathIndex(rows, Deathrate)
    requires forall j :: 0 <= j < |rows| ==> indexed[j].count == rows[j].count
    ensures PresentSum(Column(KeepCounted(indexed), Index1)) == 100000.0
  {
    DeathIndexTotal(rows, Deathrate);
    KeepCountedSum(indexed, Index1);
  }

  predicate NonNegative(rows: seq<Region>, col: Col)
  {
    forall r :: r in rows && Get(r, col).Some? ==> Get(r, col).value >= 0.0
  }

  /** The order `sort_values(by=..., ascending=False)` leaves: descending in
      the column, NaN cells last. */
  predicate Descending(rows: seq<Region>, col: Col)
  {
    forall i, j :: 0 <= i < j < |rows| && Get(rows[j], col).Some? ==>
      Get(rows[i], col).Some? && Get(rows[i], col).value >= Get(rows[j], col).value
  }

  /** `np.cumsum` of a Series: at every cell that is not NaN, the sum of the
      cells up to and including it; NaN cells stay NaN. */
  function RunningTotals(xs: seq<Cell>): (out: seq<Cell>)
    ensures |out| == |xs|
    ensures forall j :: 0 <= j < |xs| ==> (out[j].Some? <==> xs[j].Some?)
  {
    seq(|xs|, j requires 0 <= j < |xs| => if xs[j].Some? then Some(PresentSum(xs[..j + 1])) else None)
  }

  /** `np.cumsum(col)`, left to right with a running total. */
  method CumSum(xs: seq<Cell>) returns (out: array<Cell>)
    ensures out[..] == RunningTotals(xs)
  {
    ghost var totals := RunningTotals(xs);
    out := new Cell[|xs|](_ => None);
    var acc := 0.0;
    for j := 0 to |xs|
      invariant acc == PresentSum(xs[..j])
      invariant forall k :: 0 <= k < j ==> out[k] == totals[k]
      invariant forall k :: j <= k < |xs| ==> out[k] == None
    {
      assert xs[..j + 1][..j] == xs[..j];
      acc := acc + Value(xs[j]);
      if xs[j].Some? {
        out[j] := Some(acc);
      }
    }
  }

  lemma {:induction false} PresentSumPrefixes(xs: seq<Cell>, i: nat, j: nat)
    requires i <= j <= |xs|
    requires forall k :: 0 <= k < |xs| && xs[k].Some? ==> xs[k].value >= 0.0
    ensures PresentSum(xs[..i]) <= PresentSum(xs[..j])
    decreases j - i
  {
    if i < j {
      PresentSumPrefixes(xs, i, j - 1);
      assert xs[..j][..j - 1] == xs[..j - 1];
    }
  }

  lemma {:induction false} PresentSumNaNTail(xs: seq<Cell>, i: nat)
    requires i <= |xs|
    requires forall k :: i <= k < |xs| ==> xs[k].None?
    ensures PresentSum(xs[..i]) == PresentSum(xs)
    decreases |xs| - i
  {
    if i < |xs| {
      PresentSumNaNTail(xs, i + 1);
      assert xs[..i + 1][..i] == xs[..i];
    } else {
      assert xs[..i] == xs;
    }
  }

  /** With no negative cell, the running totals never decrease. */
  lemma RunningTotalsRise(xs: seq<Cell>)
    requires forall k :: 0 <= k < |xs| && xs[k].Some? ==> xs[k].value >= 0.0
    ensures forall i, j :: 0 <= i < j < |xs| && xs[i].Some? && xs[j].Some? ==>
      RunningTotals(xs)[i].value <= RunningTotals(xs)[j].value
  {
    forall i, j | 0 <= i < j < |xs| && xs[i].Some? && xs[j].Some?
      ensures RunningTotals(xs)[i].value <= RunningTotals(xs)[j].value
    {
      PresentSumPrefixes(xs, i + 1, j + 1);
    }
  }

  /** The last cell that is not NaN holds the sum of the whole column. */
  lemma RunningTotalsEnd(xs: seq<Cell>)
    ensures forall j :: 0 <= j < |xs| && xs[j].Some? && (forall k :: j < k < |xs| ==> xs[k].None?) ==>
      RunningTotals(xs)[j] == Some(PresentSum(xs))
  {
    forall j | 0 <= j < |xs| && xs[j].Some? && (forall k :: j < k < |xs| ==> xs[k].None?)
      ensures RunningTotals(xs)[j] == Some(PresentSum(xs))
    {
      PresentSumNaNTail(xs, j + 1);
    }
  }

  lemma {:induction false} PresentSumAppend(xs: seq<Cell>, ys: seq<Cell>)
    ensures PresentSum(xs + ys) == PresentSum(xs) + PresentSum(ys)
  {
    if |ys| > 0 {
      assert (xs + ys)[..|xs + ys| - 1] == xs + ys[..|ys| - 1];
      PresentSumAppend(xs, ys[..|ys| - 1]);
    } else {
      assert xs + ys == xs;
    }
  }

  /** Taking one row out of a table takes its cell out of the column's
      total. */
  lemma ColumnRemove(t: seq<Region>, p: nat, col: Col)
    requires p < |t|
    ensures PresentSum(Column(t, col))
      == PresentSum(Column(t[..p] + t[p + 1..], col)) + Value(Get(t[p], col))
  {
    ColumnSplit(t, p, col);
    ColumnJoin(t[..p], t[p + 1..], col);
    PresentSumMiddle(Column(t[..p], col), Get(t[p], col), Column(t[p + 1..], col));
  }

  lemma ColumnSplit(t: seq<Region>, p: nat, col: Col)
    requires p < |t|
    ensures Column(t, col) == Column(t[..p], col) + [Get(t[p], col)] + Column(t[p + 1..], col)
  {
  }

  lemma ColumnJoin(u: seq<Region>, v: seq<Region>, col: Col)
    ensures Column(u + v, col) == Column(u, col) + Column(v, col)
  {
  }

  lemma PresentSumMiddle(a: seq<Cell>, x: Cell, b: seq<Cell>)
    ensures PresentSum(a + [x] + b) == PresentSum(a + b) + Value(x)
  {
    PresentSumAppend(a + [x], b);
    PresentSumAppend(a, [x]);
    PresentSumAppend(a, b);
    assert [x][..0] == [];
  }

  /** Sorting does not change a column's total. */
  lemma {:induction false} ColumnPermutation(s: seq<Region>, t: seq<Region>, col: Col)
    requires multiset(s) == multiset(t)
    ensures PresentSum(Column(s, col)) == PresentSum(Column(t, col))
    decreases |s|
  {
    if |s| == 0 {
      assert |t| == |multiset(t)| == 0;
    } else {
      var n := |s| - 1;
      var p, rest := MatchLast(s, t);
      ColumnPermutation(s[..n], rest, col);
      ColumnLast(s, col);
      ColumnRemove(t, p, col);
    }
  }

  lemma ColumnLast(s: seq<Region>, col: Col)
    requires |s| > 0
    ensures PresentSum(Column(s, col)) == PresentSum(Column(s[..|s| - 1], col)) + Value(Get(s[|s| - 1], col))
  {
    assert Column(s[..|s| - 1], col) == Column(s, col)[..|s| - 1];
  }

  /** Where the last row of `s` sits in its permutation `t`, and what is
      left of `t` without it. */
  lemma MatchLast(s: seq<Region>, t: seq<Region>) returns (p: nat, rest: seq<Region>)
    requires |s| > 0 && multiset(s) == multiset(t)
    ensures p < |t| && t[p] == s[|s| - 1]
    ensures rest == t[..p] + t[p + 1..]
    ensures multiset(s[..|s| - 1]) == multiset(rest)
  {
    var n := |s| - 1;
    var x := s[n];
    assert x in multiset(s);
    p :| 0 <= p < |t| && t[p] == x;
    rest := t[..p] + t[p + 1..];
    assert t == t[..p] + [x] + t[p + 1..];
    assert s == s[..n] + [x];
    assert multiset(s[..n]) == multiset(s) - multiset{x};
    assert multiset(rest) == multiset(t) - multiset{x};
  }

  /** Lines 98-101: with the counted rows sorted by the first index, the
      cumulative inhabitants and the cumulative deaths. Both curves rise
      (given no negative cell) and end at the totals of the counted rows. */
  method Curve(kept: seq<Region>, sorted: seq<Region>) returns (inhab: array<Cell>, deaths: array<Cell>)
    requires forall r :: r in kept ==> r.count.Some?
    requires multiset(sorted) == multiset(kept) && Descending(sorted, Index1)
    ensures inhab[..] == RunningTotals(Column(sorted, Count))
    ensures deaths[..] == RunningTotals(Column(sorted, Index1))
    ensures |sorted| > 0 ==> inhab[|sorted| - 1] == Some(PresentSum(Column(kept, Count)))
    ensures forall j :: 0 <= j < |sorted| && deaths[j].Some? && (forall k :: j < k < |sorted| ==> deaths[k].None?) ==>
      deaths[j] == Some(PresentSum(Column(kept, Index1)))
    ensures NonNegative(kept, Index1) ==>
      forall i, j :: 0 <= i < j < |sorted| && deaths[i].Some? && deaths[j].Some? ==> deaths[i].value <= deaths[j].value
  {
    inhab := CumSum(Column(sorted, Count));
    deaths := CumSum(Column(sorted, Index1));
    CurveEnds(kept, sorted);
    if NonNegative(kept, Index1) {
      CurveRises(kept, sorted);
    }
  }

  /** The last cumulative inhabitants and the last present cumulative death
      index are the totals over the counted rows, whatever their order. */
  lemma CurveEnds(kept: seq<Region>, sorted: seq<Region>)
    requires forall r :: r in kept ==> r.count.Some?
    requires multiset(sorted) == multiset(kept)
    ensures |sorted| > 0 ==> RunningTotals(Column(sorted, Count))[|sorted| - 1] == Some(PresentSum(Column(kept, Count)))
    ensures forall j :: 0 <= j < |sorted| && RunningTotals(Column(sorted, Index1))[j].Some? &&
                        (forall k :: j < k < |sorted| ==> RunningTotals(Column(sorted, Index1))[k].None?) ==>
      RunningTotals(Column(sorted, Index1))[j] == Some(PresentSum(Column(kept, Index1)))
  {
    CountEnds(kept, sorted);
    DeathsEnd(kept, sorted);
  }

  lemma CountEnds(kept: seq<Region>, sorted: seq<Region>)
    requires forall r :: r in kept ==> r.count.Some?
    requires multiset(sorted) == multiset(kept)
    ensures |sorted| > 0 ==> RunningTotals(Column(sorted, Count))[|sorted| - 1] == Some(PresentSum(Column(kept, Count)))
  {
    ColumnPermutation(sorted, kept, Count);
    if |sorted| > 0 {
      var n := |sorted| - 1;
      assert sorted[n] in multiset(kept);
      assert Column(sorted, Count)[..n + 1] == Column(sorted, Count);
    }
  }

  lemma DeathsEnd(kept: seq<Region>, sorted: seq<Region>)
    requires multiset(sorted) == multiset(kept)
    ensures forall j :: 0 <= j < |sorted| && RunningTotals(Column(sorted, Index1))[j].Some? &&
                        (forall k :: j < k < |sorted| ==> RunningTotals(Column(sorted, Index1))[k].None?) ==>
      RunningTotals(Column(sorted, Index1))[j] == Some(PresentSum(Column(kept, Index1)))
  {
    ColumnPermutation(sorted, kept, Index1);
    RunningTotalsEnd(Column(sorted, Index1));
  }

  /** With no negative index, the cumulative death index never decreases. */
  lemma CurveRises(kept: seq<Region>, sorted: seq<Region>)
    requires multiset(sorted) == multiset(kept) && NonNegative(kept, Index1)
    ensures forall i, j :: 0 <= i < j < |sorted| && RunningTotals(Column(sorted, Index1))[i].Some? &&
                           RunningTotals(Column(sorted, Index1))[j].Some? ==>
      RunningTotals(Column(sorted, Index1))[i].value <= RunningTotals(Column(sorted, Index1))[j].value
  {
    forall k | 0 <= k < |sorted| && Get(sorted[k], Index1).Some?
      ensures Get(sorted[k], Index1).value >= 0.0
    {
      assert sorted[k] in multiset(kept);
    }
    RunningTotalsRise(Column(sorted, Index1));
  }
}
