// The stand-in SparseBatch of training_data_loader.cpp at the top of the
// repository: a fixed batch of 2048 samples, each with ten active features at
// columns 0, 1000, ..., 9000 in both perspectives, side to move alternating and
// score 0. Its arrays have the coordinate layout of the real batch (module
// SparseBatches), which `SyntheticIsMatrix` states.

module SyntheticBatches {
  import opened Sorting
  import opened FeatureIndex
  import opened SparseBatches

  const SIZE: nat := 2048
  const PER_ROW: nat := 10
  const SPACING: nat := 1000

  /** The columns of every row: 0, 1000, ..., 9000. */
  function RowColumns(): (r: seq<nat>)
    ensures |r| == PER_ROW && forall j :: 0 <= j < PER_ROW ==> r[j] == SPACING * j
  {
    seq(PER_ROW, j => SPACING * j)
  }

  /** `n` rows, each with the columns RowColumns(). */
  function Uniform(n: nat): (r: seq<seq<nat>>)
    ensures |r| == n && forall k :: 0 <= k < n ==> r[k] == RowColumns()
  {
    seq(n, _ => RowColumns())
  }

  /** What the constructor stores at slot `j` of an index array: for pair `i == j / 2`,
      the row `i / 10` at even slots and the column `1000 * (i % 10)` at odd ones. */
  function Slot(j: nat): nat {
    if j % 2 == 0 then j / 2 / PER_ROW else SPACING * (j / 2 % PER_ROW)
  }

  /** Pair `k` of the coordinate matrix of `n` uniform rows is `(k / 10, 1000 * (k % 10))`. */
  lemma {:induction false} UniformMatrix(n: nat)
    ensures |Matrix(Uniform(n))| == PER_ROW * n
    ensures forall k :: 0 <= k < PER_ROW * n ==> Matrix(Uniform(n))[k] == (k / PER_ROW, SPACING * (k % PER_ROW))
  {
    if n > 0 {
      assert Uniform(n)[..n - 1] == Uniform(n - 1);
      UniformMatrix(n - 1);
      var s, row := Matrix(Uniform(n - 1)), RowPairs(n - 1, RowColumns());
      assert Matrix(Uniform(n)) == s + row;
      forall k | 0 <= k < PER_ROW * n
        ensures (s + row)[k] == (k / PER_ROW, SPACING * (k % PER_ROW))
      {
        if k < PER_ROW * (n - 1) {
          assert (s + row)[k] == s[k];
        } else {
          var j := k - PER_ROW * (n - 1);
          assert (s + row)[k] == row[j];
          assert k / PER_ROW == n - 1 && k % PER_ROW == j;
        }
      }
    }
  }

  /** Index slots filled by the pattern hold the coordinate matrix of `n` uniform rows, as
      IndicesHold states it for a batch built from entries. */
  lemma SyntheticIsMatrix(idx: seq<nat>, n: nat)
    requires |idx| == 2 * (PER_ROW * n) && forall j :: 0 <= j < |idx| ==> idx[j] == Slot(j)
    ensures IndicesHold(idx, Matrix(Uniform(n)))
  {
    UniformMatrix(n);
    var m := Matrix(Uniform(n));
    forall k | 0 <= k < 2 * |m|
      ensures idx[k] == Cell(m, k)
    {
      assert m[k / 2] == (k / 2 / PER_ROW, SPACING * (k / 2 % PER_ROW));
    }
  }

  /** The synthetic matrix has the shape of a real one: rows in order and below `n`,
      columns below NUM_FEATURES and strictly increasing within a row. */
  lemma SyntheticProperties(n: nat)
    ensures var m := Matrix(Uniform(n));
            |m| == PER_ROW * n &&
            (forall k :: 0 <= k < |m| ==> m[k].0 < n && m[k].1 < NUM_FEATURES) &&
            (forall j, k :: 0 <= j < k < |m| ==> m[j].0 <= m[k].0) &&
            (forall j, k :: 0 <= j < k < |m| && m[j].0 == m[k].0 ==> m[j].1 < m[k].1)
  {
    var ls := Uniform(n);
    UniformMatrix(n);
    MatrixRowsOrdered(ls);
    assert StrictlyAscending(RowColumns());
    MatrixColumnsAscending(ls);
    PaddedSize();
    MatrixColumnsBound(ls, NUM_FEATURES);
  }

  /** `a[i] = i % 2` */
  method FillParity(a: array<real>)
    modifies a
    ensures forall i :: 0 <= i < a.Length ==> a[i] == (i % 2) as real
  {
    for i := 0 to a.Length
      invariant forall k :: 0 <= k < i ==> a[k] == (k % 2) as real
    {
      a[i] := (i % 2) as real;
    }
  }

  /** `a[i] = v` */
  method FillConstant(a: array<real>, v: real)
    modifies a
    ensures forall i :: 0 <= i < a.Length ==> a[i] == v
  {
    for i := 0 to a.Length
      invariant forall k :: 0 <= k < i ==> a[k] == v
    {
      a[i] := v;
    }
  }

  /** `a[2*i] = i/10; a[2*i+1] = 1000*(i%10)` for the first `n` pairs. */
  method FillPairs(a: array<nat>, n: nat)
    requires a.Length == 2 * n
    modifies a
    ensures forall j :: 0 <= j < a.Length ==> a[j] == Slot(j)
  {
    for i := 0 to n
      invariant forall j :: 0 <= j < 2 * i ==> a[j] == Slot(j)
    {
      a[2 * i] := i / PER_ROW;
      a[2 * i + 1] := SPACING * (i % PER_ROW);
    }
  }

  class SyntheticBatch {
    const size: nat
    const numActiveWhiteFeatures: nat
    const numActiveBlackFeatures: nat
    const stm: array<real>
    const score: array<real>
    const whiteFeatureIndices: array<nat>
    const blackFeatureIndices: array<nat>
    const whiteFeatureValues: array<real>
    const blackFeatureValues: array<real>

    /** SparseBatch(): the fixed batch. */
    constructor()
      ensures size == SIZE && numActiveWhiteFeatures == size * PER_ROW
      ensures numActiveBlackFeatures == numActiveWhiteFeatures
      ensures stm.Length == size && score.Length == size
      ensures whiteFeatureIndices.Length == 2 * numActiveWhiteFeatures
      ensures blackFeatureIndices.Length == 2 * numActiveBlackFeatures
      ensures whiteFeatureValues.Length == numActiveWhiteFeatures
      ensures blackFeatureValues.Length == numActiveBlackFeatures
      ensures forall i :: 0 <= i < size ==> stm[i] == (i % 2) as real && score[i] == 0.0
      ensures forall j :: 0 <= j < whiteFeatureIndices.Length ==> whiteFeatureIndices[j] == Slot(j)
      ensures forall j :: 0 <= j < blackFeatureIndices.Length ==> blackFeatureIndices[j] == Slot(j)
      ensures forall i :: 0 <= i < numActiveWhiteFeatures ==> whiteFeatureValues[i] == 1.0
      ensures forall i :: 0 <= i < numActiveBlackFeatures ==> blackFeatureValues[i] == 1.0
      ensures fresh(stm) && fresh(score) && fresh(whiteFeatureIndices) && fresh(blackFeatureIndices) &&
        fresh(whiteFeatureValues) && fresh(blackFeatureValues)
    {
      size := SIZE;
      numActiveWhiteFeatures := SIZE * PER_ROW;
      numActiveBlackFeatures := SIZE * PER_ROW;
      stm := new real[SIZE];
      score := new real[SIZE];
      whiteFeatureIndices := new nat[SIZE * PER_ROW * 2];
      blackFeatureIndices := new nat[SIZE * PER_ROW * 2];
      whiteFeatureValues := new real[SIZE * PER_ROW];
      blackFeatureValues := new real[SIZE * PER_ROW];
      new;
      FillParity(stm);
      FillConstant(score, 0.0);
      FillPairs(whiteFeatureIndices, numActiveWhiteFeatures);
      FillPairs(blackFeatureIndices, numActiveBlackFeatures);
      FillConstant(whiteFeatureValues, 1.0);
      FillConstant(blackFeatureValues, 1.0);
    }
  }
}
