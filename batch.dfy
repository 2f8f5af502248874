// struct SparseBatch of src/training_data_loader.cpp: the per-sample arrays
// `stm`, `score`, `gameResult` and, per perspective, the sparse feature matrix
// in coordinate form (pairs `(row, column)` in the index array, one value per
// pair). Floats are modelled as reals; the entries it is built from are the
// ones SparseBatchStream reads.

module SparseBatches {
  import opened Wrappers
  import opened Definitions
  import opened PgnPosition
  import opened FeatureIndex
  import opened Sorting
  import opened FeatureLists
  import opened FeatureTransformer

  /** TrainingDataEntry: the position (None where the FEN text does not parse), the
      int16 score and the int8 result. */
  datatype Entry = Entry(pos: Option<State>, score: int, result: int)

  /** The value-initialised entry `entries.resize` creates. */
  const EMPTY_ENTRY: Entry := Entry(None, 0, 0)

  /** fillEntry is defined on `e`: a position with both kings and at most
      MAX_ACTIVE_FEATURES indices per perspective. */
  predicate Fillable(e: Entry) {
    e.pos.Some? &&
    HasKing(e.pos.value, WHITE) && |Collected(e.pos.value, WHITE)| <= MAX_ACTIVE_FEATURES &&
    HasKing(e.pos.value, BLACK) && |Collected(e.pos.value, BLACK)| <= MAX_ACTIVE_FEATURES
  }

  predicate AllFillable(es: seq<Entry>) {
    forall k :: 0 <= k < |es| ==> Fillable(es[k])
  }

  /** The sorted column indices fillFeatures writes for `e` and perspective `c`. */
  function Features(e: Entry, c: Color): (r: seq<nat>)
    requires Fillable(e)
    ensures |r| <= MAX_ACTIVE_FEATURES
  {
    ActiveFeaturesBound(e.pos.value, c);
    ActiveFeatures(e.pos.value, c)
  }

  /** `stm[i]`: 0 for white to move, 1 for black. */
  function StmValue(e: Entry): real
    requires e.pos.Some?
  {
    if e.pos.value.stm == BLACK then 1.0 else 0.0
  }

  /** `gameResult[i] = (result + 1) / 2`. */
  function ResultValue(e: Entry): (r: real)
    ensures e.result == -1 ==> r == 0.0
    ensures e.result == 0 ==> r == 0.5
    ensures e.result == 1 ==> r == 1.0
  {
    (e.result as real + 1.0) / 2.0
  }

  /** The pairs `(i, column)` of row `i`. */
  function RowPairs(i: nat, cols: seq<nat>): (r: seq<(nat, nat)>)
    ensures |r| == |cols|
  {
    seq(|cols|, k requires 0 <= k < |cols| => (i, cols[k]))
  }

  /** The column lists of perspective `c`, one per entry. */
  function Lists(es: seq<Entry>, c: Color): (r: seq<seq<nat>>)
    requires AllFillable(es)
    ensures |r| == |es|
  {
    seq(|es|, k requires 0 <= k < |es| => Features(es[k], c))
  }

  /** The sparse matrix with row `i` holding the columns `ls[i]`, as `(row, column)` pairs
      in row order. */
  function Matrix(ls: seq<seq<nat>>): (r: seq<(nat, nat)>)
  {
    if |ls| == 0 then [] else Matrix(ls[..|ls| - 1]) + RowPairs(|ls| - 1, ls[|ls| - 1])
  }

  /** The sparse matrix of perspective `c` after fillEntry of the entries `es`. */
  function Sparse(es: seq<Entry>, c: Color): (r: seq<(nat, nat)>)
    requires AllFillable(es)
  {
    Matrix(Lists(es, c))
  }

  /** Slot `k` of an index array holding the pairs of `s` side by side. */
  function Cell(s: seq<(nat, nat)>, k: nat): nat
    requires k < 2 * |s|
  {
    if k % 2 == 0 then s[k / 2].0 else s[k / 2].1
  }

  /** The first `2|s|` slots of `idx` hold the pairs of `s`. */
  predicate IndicesHold(idx: seq<nat>, s: seq<(nat, nat)>) {
    2 * |s| <= |idx| && forall k :: 0 <= k < 2 * |s| ==> idx[k] == Cell(s, k)
  }

  /** The first `n` values are 1. */
  predicate ValuesHold(vals: seq<real>, n: nat) {
    n <= |vals| && forall k :: 0 <= k < n ==> vals[k] == 1.0
  }

  /** One fillFeatures call appends row `i` to the pairs already in the index array. */
  lemma AppendRow(before: seq<nat>, after: array<nat>, s: seq<(nat, nat)>, n0: nat, n: nat, i: nat,
                  cols: seq<nat>)
    requires IndicesHold(before, s) && after.Length == |before| && n0 == |s| && n == n0 + |cols|
    requires 2 * n <= after.Length
    requires forall k :: 0 <= k < after.Length && !(2 * n0 <= k < 2 * n) ==> after[k] == before[k]
    requires forall k :: 2 * n0 <= k < 2 * n ==> after[k] == if k % 2 == 0 then i else cols[k / 2 - n0]
    ensures IndicesHold(after[..], s + RowPairs(i, cols))
  {
    var t := s + RowPairs(i, cols);
    forall k | 0 <= k < 2 * |t|
      ensures after[k] == Cell(t, k)
    {
      if k < 2 * |s| {
        assert t[k / 2] == s[k / 2];
      } else {
        assert t[k / 2] == RowPairs(i, cols)[k / 2 - |s|];
      }
    }
  }

  /** Appending `m` values 1 keeps the values 1. */
  lemma AppendValues(before: seq<real>, after: array<real>, n0: nat, n: nat)
    requires ValuesHold(before, n0) && after.Length == |before| && n0 <= n <= after.Length
    requires forall k :: 0 <= k < after.Length && !(n0 <= k < n) ==> after[k] == before[k]
    requires forall k :: n0 <= k < n ==> after[k] == 1.0
    ensures ValuesHold(after[..], n)
  {
  }

  /** The prefix `ls[..i + 1]` adds row `i` to the matrix of `ls[..i]`. */
  lemma MatrixStep(ls: seq<seq<nat>>, i: nat)
    requires i < |ls|
    ensures Matrix(ls[..i + 1]) == Matrix(ls[..i]) + RowPairs(i, ls[i])
  {
    assert ls[..i + 1][..i] == ls[..i];
  }

  /** A matrix has one pair per listed column, at most `m` per row when no list is longer
      than `m`: MAX_ACTIVE_FEATURES per entry fits the batch's allocation. */
  lemma {:induction false} MatrixSize(ls: seq<seq<nat>>, m: nat)
    requires forall k :: 0 <= k < |ls| ==> |ls[k]| <= m
    ensures |Matrix(ls)| <= m * |ls|
  {
    if |ls| > 0 {
      var n := |ls| - 1;
      assert forall k :: 0 <= k < n ==> ls[..n][k] == ls[k];
      MatrixSize(ls[..n], m);
      assert |Matrix(ls)| == |Matrix(ls[..n])| + |ls[n]|;
      assert m * |ls| == m * n + m;
    }
  }

  /** Row numbers never decrease along the matrix, and each is the number of a list. */
  lemma {:induction false} MatrixRowsOrdered(ls: seq<seq<nat>>)
    ensures forall k :: 0 <= k < |Matrix(ls)| ==> Matrix(ls)[k].0 < |ls|
    ensures forall j, k :: 0 <= j < k < |Matrix(ls)| ==> Matrix(ls)[j].0 <= Matrix(ls)[k].0
  {
    if |ls| > 0 {
      var n := |ls| - 1;
      var s, row := Matrix(ls[..n]), RowPairs(n, ls[n]);
      MatrixRowsOrdered(ls[..n]);
      var t := s + row;
      assert Matrix(ls) == t;
      forall k | 0 <= k < |t|
        ensures t[k].0 < |ls|
      {
        if k < |s| {
          assert t[k] == s[k];
        } else {
          assert t[k] == row[k - |s|];
        }
      }
      forall j, k | 0 <= j < k < |t|
        ensures t[j].0 <= t[k].0
      {
        if k < |s| {
          assert t[j] == s[j] && t[k] == s[k];
        } else if j >= |s| {
          assert t[j] == row[j - |s|] && t[k] == row[k - |s|];
        } else {
          assert t[j] == s[j] && t[k] == row[k - |s|];
        }
      }
    }
  }

  /** With every list strictly ascending, the columns strictly increase within a row: the
      matrix has no duplicate coordinate. */
  lemma {:induction false} MatrixColumnsAscending(ls: seq<seq<nat>>)
    requires forall k :: 0 <= k < |ls| ==> StrictlyAscending(ls[k])
    ensures forall j, k :: 0 <= j < k < |Matrix(ls)| && Matrix(ls)[j].0 == Matrix(ls)[k].0 ==>
      Matrix(ls)[j].1 < Matrix(ls)[k].1
  {
    if |ls| > 0 {
      var n := |ls| - 1;
      var s, row := Matrix(ls[..n]), RowPairs(n, ls[n]);
      MatrixRowsOrdered(ls[..n]);
      assert forall k :: 0 <= k < n ==> ls[..n][k] == ls[k];
      MatrixColumnsAscending(ls[..n]);
      var t := s + row;
      assert Matrix(ls) == t;
      forall j, k | 0 <= j < k < |t| && t[j].0 == t[k].0
        ensures t[j].1 < t[k].1
      {
        if k < |s| {
          assert t[j] == s[j] && t[k] == s[k];
        } else if j >= |s| {
          assert t[j] == row[j - |s|] && t[k] == row[k - |s|];
        } else {
          assert false;
        }
      }
    }
  }

  /** Every column of the matrix is below `bound` when every listed column is. */
  lemma {:induction false} MatrixColumnsBound(ls: seq<seq<nat>>, bound: nat)
    requires forall k, j :: 0 <= k < |ls| && 0 <= j < |ls[k]| ==> ls[k][j] < bound
    ensures forall k :: 0 <= k < |Matrix(ls)| ==> Matrix(ls)[k].1 < bound
  {
    if |ls| > 0 {
      var n := |ls| - 1;
      var s, row := Matrix(ls[..n]), RowPairs(n, ls[n]);
      assert forall k :: 0 <= k < n ==> ls[..n][k] == ls[k];
      MatrixColumnsBound(ls[..n], bound);
      var t := s + row;
      assert Matrix(ls) == t;
      forall k | 0 <= k < |t|
        ensures t[k].1 < bound
      {
        if k < |s| {
          assert t[k] == s[k];
        } else {
          assert t[k] == row[k - |s|];
        }
      }
    }
  }

  /** The batch's matrix of perspective `c`: at most MAX_ACTIVE_FEATURES pairs per entry,
      rows in order, every column below NUM_FEATURES, and, once every piece of every entry
      has a table slot, no duplicate coordinate. */
  lemma SparseProperties(es: seq<Entry>, c: Color)
    requires AllFillable(es)
    ensures |Sparse(es, c)| <= MAX_ACTIVE_FEATURES * |es|
    ensures forall j, k :: 0 <= j < k < |Sparse(es, c)| ==> Sparse(es, c)[j].0 <= Sparse(es, c)[k].0
    ensures forall k :: 0 <= k < |Sparse(es, c)| ==>
      Sparse(es, c)[k].0 < |es| && Sparse(es, c)[k].1 < NUM_FEATURES
    ensures (forall k :: 0 <= k < |es| ==> AllAssigned(es[k].pos.value, c)) ==>
      forall j, k :: 0 <= j < k < |Sparse(es, c)| && Sparse(es, c)[j].0 == Sparse(es, c)[k].0 ==>
        Sparse(es, c)[j].1 < Sparse(es, c)[k].1
  {
    SparseShape(es, c);
    if forall k :: 0 <= k < |es| ==> AllAssigned(es[k].pos.value, c) {
      SparseAscending(es, c);
    }
  }

  lemma SparseShape(es: seq<Entry>, c: Color)
    requires AllFillable(es)
    ensures |Sparse(es, c)| <= MAX_ACTIVE_FEATURES * |es|
    ensures forall j, k :: 0 <= j < k < |Sparse(es, c)| ==> Sparse(es, c)[j].0 <= Sparse(es, c)[k].0
    ensures forall k :: 0 <= k < |Sparse(es, c)| ==>
      Sparse(es, c)[k].0 < |es| && Sparse(es, c)[k].1 < NUM_FEATURES
  {
    var ls := Lists(es, c);
    MatrixSize(ls, MAX_ACTIVE_FEATURES);
    MatrixRowsOrdered(ls);
    ListsBound(es, c);
    MatrixColumnsBound(ls, NUM_FEATURES);
  }

  lemma SparseAscending(es: seq<Entry>, c: Color)
    requires AllFillable(es) && forall k :: 0 <= k < |es| ==> AllAssigned(es[k].pos.value, c)
    ensures forall j, k :: 0 <= j < k < |Sparse(es, c)| && Sparse(es, c)[j].0 == Sparse(es, c)[k].0 ==>
      Sparse(es, c)[j].1 < Sparse(es, c)[k].1
  {
    ListsAscending(es, c);
    MatrixColumnsAscending(Lists(es, c));
  }

  lemma ListsBound(es: seq<Entry>, c: Color)
    requires AllFillable(es)
    ensures forall k, j :: 0 <= k < |es| && 0 <= j < |Lists(es, c)[k]| ==> Lists(es, c)[k][j] < NUM_FEATURES
  {
    var ls := Lists(es, c);
    forall k, j | 0 <= k < |ls| && 0 <= j < |ls[k]|
      ensures ls[k][j] < NUM_FEATURES
    {
      ActiveFeaturesBound(es[k].pos.value, c);
    }
  }

  lemma ListsAscending(es: seq<Entry>, c: Color)
    requires AllFillable(es) && forall k :: 0 <= k < |es| ==> AllAssigned(es[k].pos.value, c)
    ensures forall k :: 0 <= k < |es| ==> StrictlyAscending(Lists(es, c)[k])
  {
    var ls := Lists(es, c);
    forall k | 0 <= k < |ls|
      ensures StrictlyAscending(ls[k])
    {
      ActiveFeaturesDistinct(es[k].pos.value, c);
    }
  }

  /** `stm`, `score` and `gameResult` hold the values of entries `0..n-1`. */
  predicate SamplesHold(stm: array<real>, score: array<real>, gameResult: array<real>, es: seq<Entry>, n: nat)
    requires n <= |es|
    reads stm, score, gameResult
  {
    n <= stm.Length && n <= score.Length && n <= gameResult.Length &&
    forall k :: 0 <= k < n ==>
      es[k].pos.Some? && stm[k] == StmValue(es[k]) && score[k] == es[k].score as real &&
      gameResult[k] == ResultValue(es[k])
  }

  /** One perspective's arrays hold the matrix of rows `0..n-1`, with `count` pairs, at most
      MAX_ACTIVE_FEATURES per row. */
  predicate SideHolds(featureIndices: array<nat>, featureValues: array<real>, count: nat,
                      ls: seq<seq<nat>>, n: nat)
    requires n <= |ls|
    reads featureIndices, featureValues
  {
    count == |Matrix(ls[..n])| && count <= MAX_ACTIVE_FEATURES * n &&
    IndicesHold(featureIndices[..], Matrix(ls[..n])) && ValuesHold(featureValues[..], count)
  }

  class SparseBatch {
    const size: nat
    var numActiveWhiteFeatures: nat
    var numActiveBlackFeatures: nat
    const stm: array<real>
    const score: array<real>
    const gameResult: array<real>
    const whiteFeatureIndices: array<nat>
    const blackFeatureIndices: array<nat>
    const whiteFeatureValues: array<real>
    const blackFeatureValues: array<real>

    /** The allocation sizes of the constructor: `size` per sample array and
        `size * MAX_ACTIVE_FEATURES` slots per perspective, on separate arrays. */
    predicate Shaped() {
      stm.Length == size && score.Length == size && gameResult.Length == size &&
      whiteFeatureIndices.Length == size * MAX_ACTIVE_FEATURES * 2 &&
      blackFeatureIndices.Length == size * MAX_ACTIVE_FEATURES * 2 &&
      whiteFeatureValues.Length == size * MAX_ACTIVE_FEATURES &&
      blackFeatureValues.Length == size * MAX_ACTIVE_FEATURES &&
      whiteFeatureIndices != blackFeatureIndices &&
      stm != score && stm != gameResult && stm != whiteFeatureValues && stm != blackFeatureValues &&
      score != gameResult && score != whiteFeatureValues && score != blackFeatureValues &&
      gameResult != whiteFeatureValues && gameResult != blackFeatureValues &&
      whiteFeatureValues != blackFeatureValues
    }

    /** Entries `0..n-1` of `es` are filled in, `lw` and `lb` being the column lists of the
        two perspectives. */
    predicate Filled(es: seq<Entry>, lw: seq<seq<nat>>, lb: seq<seq<nat>>, n: nat)
      requires n <= |es| && n <= |lw| && n <= |lb|
      reads this, stm, score, gameResult, whiteFeatureIndices, blackFeatureIndices,
        whiteFeatureValues, blackFeatureValues
    {
      Shaped() && n <= size && SamplesHold(stm, score, gameResult, es, n) &&
      SideHolds(whiteFeatureIndices, whiteFeatureValues, numActiveWhiteFeatures, lw, n) &&
      SideHolds(blackFeatureIndices, blackFeatureValues, numActiveBlackFeatures, lb, n)
    }

    /** SparseBatch(entries): allocates the arrays, then fillEntry for every entry. */
    constructor(table: FeatureTable, entries: seq<Entry>)
      requires table.Initialized() && AllFillable(entries)
      ensures size == |entries|
      ensures Filled(entries, Lists(entries, WHITE), Lists(entries, BLACK), |entries|)
      ensures numActiveWhiteFeatures == |Sparse(entries, WHITE)|
      ensures numActiveBlackFeatures == |Sparse(entries, BLACK)|
      ensures IndicesHold(whiteFeatureIndices[..], Sparse(entries, WHITE))
      ensures IndicesHold(blackFeatureIndices[..], Sparse(entries, BLACK))
      ensures fresh(stm) && fresh(score) && fresh(gameResult) && fresh(whiteFeatureIndices) &&
        fresh(blackFeatureIndices) && fresh(whiteFeatureValues) && fresh(blackFeatureValues)
    {
      var n := |entries|;
      size := n;
      numActiveWhiteFeatures := 0;
      numActiveBlackFeatures := 0;
      stm := new real[n];
      score := new real[n];
      gameResult := new real[n];
      whiteFeatureIndices := new nat[n * MAX_ACTIVE_FEATURES * 2];
      blackFeatureIndices := new nat[n * MAX_ACTIVE_FEATURES * 2];
      whiteFeatureValues := new real[n * MAX_ACTIVE_FEATURES];
      blackFeatureValues := new real[n * MAX_ACTIVE_FEATURES];
      new;
      ghost var lw, lb := Lists(entries, WHITE), Lists(entries, BLACK);
      for i := 0 to n
        invariant Filled(entries, lw, lb, i)
        invariant fresh(stm) && fresh(score) && fresh(gameResult) && fresh(whiteFeatureIndices) &&
          fresh(blackFeatureIndices) && fresh(whiteFeatureValues) && fresh(blackFeatureValues)
      {
        FillEntry(table, entries, lw, lb, i);
      }
      assert lw[..n] == lw && lb[..n] == lb;
    }

    /** fillEntry(i, entries[i]) with entries `0..i-1` already filled: the sample values
        of row `i`, then fillFeatures for WHITE and for BLACK, after which entries `0..i`
        are filled. */
    method FillEntry(table: FeatureTable, es: seq<Entry>, ghost lw: seq<seq<nat>>, ghost lb: seq<seq<nat>>,
                     i: nat)
      requires table.Initialized() && AllFillable(es) && i < |es|
      requires lw == Lists(es, WHITE) && lb == Lists(es, BLACK)
      requires i < size && Filled(es, lw, lb, i)
      modifies this, stm, score, gameResult, whiteFeatureIndices, blackFeatureIndices,
        whiteFeatureValues, blackFeatureValues
      ensures Filled(es, lw, lb, i + 1)
    {
      var e := es[i];
      FillSample(stm, score, gameResult, i, e, es);
      numActiveWhiteFeatures := AppendEntry(table, i, size, es, WHITE, whiteFeatureIndices, whiteFeatureValues,
        numActiveWhiteFeatures, lw);
      numActiveBlackFeatures := AppendEntry(table, i, size, es, BLACK, blackFeatureIndices, blackFeatureValues,
        numActiveBlackFeatures, lb);
    }
  }

  /** The first three statements of fillEntry: `stm[i]`, `score[i]`, `gameResult[i]`. */
  method FillSample(stm: array<real>, score: array<real>, gameResult: array<real>, i: nat, e: Entry,
                    ghost es: seq<Entry>)
    requires e.pos.Some? && i < stm.Length && i < score.Length && i < gameResult.Length
    requires i < |es| && es[i] == e && SamplesHold(stm, score, gameResult, es, i)
    requires stm != score && stm != gameResult && score != gameResult
    modifies stm, score, gameResult
    ensures stm[i] == StmValue(e) && score[i] == e.score as real && gameResult[i] == ResultValue(e)
    ensures forall k :: 0 <= k < stm.Length && k != i ==> stm[k] == old(stm[k])
    ensures forall k :: 0 <= k < score.Length && k != i ==> score[k] == old(score[k])
    ensures forall k :: 0 <= k < gameResult.Length && k != i ==> gameResult[k] == old(gameResult[k])
    ensures SamplesHold(stm, score, gameResult, es, i + 1)
  {
    stm[i] := if e.pos.value.stm == BLACK then 1.0 else 0.0;
    score[i] := e.score as real;
    gameResult[i] := (e.result as real + 1.0) / 2.0;
  }

  /** One fillFeatures call of fillEntry(i, e), for perspective `c`: the arrays that held
      the matrix of rows `0..i-1` hold that of rows `0..i`. */
  method AppendEntry(table: FeatureTable, i: nat, size: nat, es: seq<Entry>, c: Color,
                     featureIndices: array<nat>, featureValues: array<real>, n0: nat, ghost ls: seq<seq<nat>>)
    returns (n: nat)
    requires table.Initialized() && AllFillable(es) && i < |es| && ls == Lists(es, c)
    requires i < size && 2 * MAX_ACTIVE_FEATURES * size <= featureIndices.Length
    requires MAX_ACTIVE_FEATURES * size <= featureValues.Length
    requires SideHolds(featureIndices, featureValues, n0, ls, i)
    modifies featureIndices, featureValues
    ensures SideHolds(featureIndices, featureValues, n, ls, i + 1)
  {
    ghost var before, vals := featureIndices[..], featureValues[..];
    var p := es[i].pos.value;
    var ok;
    ok, n := table.FillFeatures(i, p, c, featureIndices, featureValues, n0);
    MatrixStep(ls, i);
    AppendRow(before, featureIndices, Matrix(ls[..i]), n0, n, i, ActiveFeatures(p, c));
    AppendValues(vals, featureValues, n0, n);
  }
}
