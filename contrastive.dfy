/**
 * The InfoNCE sample layout of CL4SRec (model.py, mask_correlated_samples and
 * info_nce). The batch holds 2B views: row i < B is the first view of sample i,
 * row B + i its second view. Similarity values are opaque (type V).
 */
module Contrastive {
  import opened Wrappers
  import opened Indexing

  /** The other view of the same sample. */
  function Partner(b: nat, i: nat): nat
  {
    if i < b then i + b else i - b
  }

  /** Column j is a negative for row i: neither i itself nor the other view of i. */
  predicate NegativePair(b: nat, i: int, j: int)
  {
    i != j && i != j + b && j != i + b
  }

  /**
   * mask_correlated_samples: an all-true N x N matrix (N = 2B) whose diagonal is
   * cleared, then entries (i, B+i) and (B+i, i) cleared for every i < B.
   */
  method MaskCorrelatedSamples(b: nat) returns (mask: array2<bool>)
    ensures mask.Length0 == 2 * b && mask.Length1 == 2 * b
    ensures forall i, j :: 0 <= i < 2 * b && 0 <= j < 2 * b ==> (mask[i, j] <==> NegativePair(b, i, j))
  {
    var n := 2 * b;
    mask := new bool[n, n]((i, j) => true);
    for d := 0 to n
      invariant forall p, q :: 0 <= p < n && 0 <= q < n ==> (mask[p, q] <==> !(p == q && p < d))
    {
      mask[d, d] := false;
    }
    for i := 0 to b
      invariant forall p, q :: 0 <= p < n && 0 <= q < n ==>
        (mask[p, q] <==> !(p == q || (q == p + b && p < i) || (p == q + b && q < i)))
    {
      mask[i, b + i] := false;
      mask[b + i, i] := false;
    }
  }

  /** Row i of the mask as a sequence. */
  function MaskRow(b: nat, i: nat): (row: seq<bool>)
    ensures |row| == 2 * b
  {
    seq(2 * b, j => NegativePair(b, i, j))
  }

  /** The mask is symmetric, and row i excludes exactly column i and its partner's column. */
  lemma MaskRowExcludesSelfAndPartner(b: nat, i: nat, j: nat)
    requires i < 2 * b && j < 2 * b
    ensures MaskRow(b, i)[j] == MaskRow(b, j)[i]
    ensures MaskRow(b, i)[j] <==> j != i && j != Partner(b, i)
    ensures Partner(b, i) < 2 * b && Partner(b, i) != i && Partner(b, Partner(b, i)) == i
  {
  }

  function CountTrue(row: seq<bool>): (c: nat)
    ensures c <= |row|
  {
    if row == [] then 0 else (if row[0] then 1 else 0) + CountTrue(row[1..])
  }

  /** A row that is true everywhere except at two distinct columns x and y. */
  lemma {:induction false} CountAllButTwo(row: seq<bool>, x: int, y: int)
    requires 0 <= x < |row| && 0 <= y < |row| && x != y
    requires forall j :: 0 <= j < |row| ==> (row[j] <==> j != x && j != y)
    ensures CountTrue(row) == |row| - 2
  {
    if x == 0 || y == 0 {
      CountAllButOne(row[1..], if x == 0 then y - 1 else x - 1);
    } else {
      CountAllButTwo(row[1..], x - 1, y - 1);
    }
  }

  lemma {:induction false} CountAllButOne(row: seq<bool>, x: int)
    requires 0 <= x < |row|
    requires forall j :: 0 <= j < |row| ==> (row[j] <==> j != x)
    ensures CountTrue(row) == |row| - 1
  {
    if x == 0 {
      CountAllTrue(row[1..]);
    } else {
      CountAllButOne(row[1..], x - 1);
    }
  }

  lemma {:induction false} CountAllTrue(row: seq<bool>)
    requires forall j :: 0 <= j < |row| ==> row[j]
    ensures CountTrue(row) == |row|
  {
    if row != [] {
      CountAllTrue(row[1..]);
    }
  }

  /** Every row of the mask keeps N - 2 entries, so `sim[mask]` splits into N equal rows. */
  lemma MaskRowCount(b: nat, i: nat)
    requires 1 <= b && i < 2 * b
    ensures CountTrue(MaskRow(b, i)) == 2 * b - 2
  {
    forall j | 0 <= j < 2 * b ensures MaskRow(b, i)[j] <==> j != i && j != Partner(b, i) {
      MaskRowExcludesSelfAndPartner(b, i, j);
    }
    CountAllButTwo(MaskRow(b, i), i, Partner(b, i));
  }

  /** Boolean indexing of one row: the entries whose flag is set, in order. */
  function Select<V>(row: seq<V>, keep: seq<bool>): (r: seq<V>)
    requires |row| == |keep|
    ensures |r| == CountTrue(keep)
  {
    if row == [] then [] else (if keep[0] then [row[0]] else []) + Select(row[1..], keep[1..])
  }

  /** Consecutive chunks of width w. */
  function Chunks<V>(s: seq<V>, w: nat): seq<seq<V>>
    requires w > 0
    decreases |s|
  {
    if |s| < w || |s| == 0 then [] else [s[..w]] + Chunks(s[w..], w)
  }

  datatype ReshapeError = RuntimeError

  /** `reshape(n, -1)`: refused for an empty tensor (the -1 is ambiguous) or a size n does not divide. */
  function ReshapeRows<V>(s: seq<V>, n: nat): Result<seq<seq<V>>, ReshapeError>
  {
    if n == 0 || |s| == 0 || |s| % n != 0 then Err(RuntimeError) else Ok(Chunks(s, |s| / n))
  }

  /** Regrouping a flattening of equal-width rows by that width gives the rows back. */
  lemma {:induction false} ChunksOfFlatten<V>(rows: seq<seq<V>>, w: nat)
    requires w > 0
    requires Rectangular(rows, w)
    ensures Chunks(Flatten(rows), w) == rows
  {
    if rows != [] {
      var f := Flatten(rows);
      FlattenLength(rows, w);
      assert f[..w] == rows[0];
      assert f[w..] == Flatten(rows[1..]);
      ChunksOfFlatten(rows[1..], w);
    }
  }

  /** `sim[mask].reshape(N, -1)`: the negatives of every row. */
  function NegativeSamples<V>(sim: seq<seq<V>>, b: nat): Result<seq<seq<V>>, ReshapeError>
    requires |sim| == 2 * b && forall i :: 0 <= i < 2 * b ==> |sim[i]| == 2 * b
  {
    ReshapeRows(Flatten(seq(2 * b, i requires 0 <= i < 2 * b => Select(sim[i], MaskRow(b, i)))), 2 * b)
  }

  /**
   * For B >= 2 the reshape succeeds and row i of the negatives is exactly row i
   * of the similarities with columns i and Partner(i) removed, N - 2 entries;
   * for B <= 1 nothing is left to reshape and torch refuses.
   */
  lemma NegativeSamplesPerRow<V>(sim: seq<seq<V>>, b: nat)
    requires |sim| == 2 * b && forall i :: 0 <= i < 2 * b ==> |sim[i]| == 2 * b
    ensures b <= 1 ==> NegativeSamples(sim, b).Err?
    ensures b >= 2 ==> var neg := NegativeSamples(sim, b);
      && neg.Ok? && |neg.value| == 2 * b
      && forall i :: 0 <= i < 2 * b ==> neg.value[i] == Select(sim[i], MaskRow(b, i)) && |neg.value[i]| == 2 * b - 2
  {
    var n := 2 * b;
    var rows := seq(n, i requires 0 <= i < n => Select(sim[i], MaskRow(b, i)));
    if b >= 1 {
      RowsHaveWidth(sim, b, rows);
      FlattenLength(rows, n - 2);
      ExactQuotient(n, n - 2);
      if b >= 2 {
        ChunksOfFlatten(rows, n - 2);
      }
    } else {
      assert rows == [];
    }
  }

  lemma RowsHaveWidth<V>(sim: seq<seq<V>>, b: nat, rows: seq<seq<V>>)
    requires 1 <= b
    requires |sim| == 2 * b && forall i :: 0 <= i < 2 * b ==> |sim[i]| == 2 * b
    requires rows == seq(2 * b, i requires 0 <= i < 2 * b => Select(sim[i], MaskRow(b, i)))
    ensures Rectangular(rows, 2 * b - 2)
  {
    forall i | 0 <= i < 2 * b ensures |rows[i]| == 2 * b - 2 {
      MaskRowCount(b, i);
    }
  }

  lemma ExactQuotient(n: nat, w: nat)
    requires n > 0
    ensures (n * w) % n == 0 && (n * w) / n == w
  {
    var q, r := (n * w) / n, (n * w) % n;
    assert n * w == n * q + r && 0 <= r < n;
    var d := w - q;
    assert n * d == r by {
      assert n * w - n * q == n * (w - q);
    }
  }

  /** `cat(diag(sim, B), diag(sim, -B))`: the positive of every row. */
  function PositiveSamples<V>(sim: seq<seq<V>>, b: nat): (pos: seq<V>)
    requires |sim| == 2 * b && forall i :: 0 <= i < 2 * b ==> |sim[i]| == 2 * b
    ensures |pos| == 2 * b
  {
    seq(b, i requires 0 <= i < b => sim[i][i + b]) + seq(b, i requires 0 <= i < b => sim[i + b][i])
  }

  /** The positive of row i is its partner's column, the one off-diagonal entry the mask drops. */
  lemma PositiveIsMaskedPartner<V>(sim: seq<seq<V>>, b: nat, i: nat)
    requires |sim| == 2 * b && forall k :: 0 <= k < 2 * b ==> |sim[k]| == 2 * b
    requires i < 2 * b
    ensures PositiveSamples(sim, b)[i] == sim[i][Partner(b, i)]
    ensures !MaskRow(b, i)[Partner(b, i)] && Partner(b, i) != i
  {
  }
}
