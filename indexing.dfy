/**
 * Tensor indexing shared by the loss selection and the candidate layout:
 * row-major flattening (`view(-1, ...)`, `reshape`) and boolean indexing
 * (`x[mask]`, `x[np.where(m != 0)]`), which keeps the flagged entries in
 * ascending order.
 */
module Indexing {
  /** Row-major flattening. */
  function Flatten<X>(rows: seq<seq<X>>): seq<X>
  {
    if rows == [] then [] else rows[0] + Flatten(rows[1..])
  }

  predicate Rectangular<X>(rows: seq<seq<X>>, w: nat)
  {
    forall i :: 0 <= i < |rows| ==> |rows[i]| == w
  }

  lemma {:induction false} FlattenLength<X>(rows: seq<seq<X>>, w: nat)
    requires Rectangular(rows, w)
    ensures |Flatten(rows)| == |rows| * w
  {
    if rows != [] {
      FlattenLength(rows[1..], w);
    }
  }

  /** Entry (b, t) of a b-by-w grid lands at flat index b * w + t. */
  lemma {:induction false} FlattenAt<X>(rows: seq<seq<X>>, w: nat, b: nat, t: nat)
    requires Rectangular(rows, w)
    requires b < |rows| && t < w
    ensures b * w + t < |Flatten(rows)|
    ensures Flatten(rows)[b * w + t] == rows[b][t]
  {
    FlattenLength(rows, w);
    FlattenLength(rows[1..], w);
    if b > 0 {
      FlattenAt(rows[1..], w, b - 1, t);
      assert b * w + t == w + ((b - 1) * w + t);
    }
  }

  /** The flat index of every entry splits back into its (row, column) pair. */
  lemma FlatIndexSplits(w: nat, k: nat)
    requires w > 0
    ensures k == (k / w) * w + k % w && k % w < w
  {
  }

  /** A flat index below b * t falls in one of the b rows. */
  lemma FlatIndexInGrid(n: nat, b: nat, t: nat)
    requires t > 0 && n < b * t
    ensures 0 <= n / t < b && 0 <= n % t < t && n == (n / t) * t + n % t
  {
    FlatIndexSplits(t, n);
  }

  /** The positions from `from` on whose entry is nonzero, ascending (np.where(s != 0)). */
  function NonzeroFrom(s: seq<int>, from: nat): (r: seq<nat>)
    ensures forall k :: 0 <= k < |r| ==> from <= r[k] < |s| && s[r[k]] != 0
    ensures forall k, l :: 0 <= k < l < |r| ==> r[k] < r[l]
    ensures forall j :: from <= j < |s| && s[j] != 0 ==> j in r
    decreases |s| - from
  {
    if from >= |s| then [] else (if s[from] != 0 then [from] else []) + NonzeroFrom(s, from + 1)
  }

  lemma {:induction false} NoNonzero(s: seq<int>, from: nat)
    requires forall n :: from <= n < |s| ==> s[n] == 0
    ensures NonzeroFrom(s, from) == []
    decreases |s| - from
  {
    if from < |s| {
      NoNonzero(s, from + 1);
    }
  }

  function Nonzero(s: seq<int>): (r: seq<nat>)
  {
    NonzeroFrom(s, 0)
  }

  /** Exactly the nonzero positions, each once, in ascending order. */
  lemma NonzeroIsExact(s: seq<int>, j: int)
    requires 0 <= j < |s|
    ensures j in Nonzero(s) <==> s[j] != 0
    ensures forall k, l :: 0 <= k < l < |Nonzero(s)| ==> Nonzero(s)[k] < Nonzero(s)[l]
  {
  }

  /** `x[idx]` for a sequence of indices. */
  function Gather<X>(x: seq<X>, idx: seq<nat>): (r: seq<X>)
    requires forall k :: 0 <= k < |idx| ==> idx[k] < |x|
    ensures |r| == |idx| && forall k :: 0 <= k < |idx| ==> r[k] == x[idx[k]]
  {
    seq(|idx|, k requires 0 <= k < |idx| => x[idx[k]])
  }

  /** `x[m != 0]`: boolean indexing by a mask of the same length. */
  function WhereNonzero<X>(x: seq<X>, m: seq<int>): (r: seq<X>)
    requires |x| == |m|
  {
    Gather(x, Nonzero(m))
  }

  /** A flagged position is selected: some entry of `x[m != 0]` is x[n]. */
  lemma WhereNonzeroCovers<X>(x: seq<X>, m: seq<int>, n: nat) returns (k: nat)
    requires |x| == |m| && n < |m| && m[n] != 0
    ensures k < |WhereNonzero(x, m)| && Nonzero(m)[k] == n && WhereNonzero(x, m)[k] == x[n]
  {
    assert n in Nonzero(m);
    k :| 0 <= k < |Nonzero(m)| && Nonzero(m)[k] == n;
  }

  /** Two tensors of the same shape indexed by the same mask stay aligned entry by entry. */
  lemma WhereNonzeroAligned<X, Y>(x: seq<X>, y: seq<Y>, m: seq<int>, k: nat)
    requires |x| == |m| && |y| == |m|
    requires k < |WhereNonzero(x, m)|
    ensures |WhereNonzero(y, m)| == |WhereNonzero(x, m)|
    ensures exists j :: 0 <= j < |m| && m[j] != 0 && WhereNonzero(x, m)[k] == x[j] && WhereNonzero(y, m)[k] == y[j]
  {
    var j := Nonzero(m)[k];
    assert 0 <= j < |m| && m[j] != 0;
  }
}
