/**
 * Padding and causal masks of the self-attention encoders (model.py,
 * NewRec.log2feats; SASRec and CL4SRec build theirs the same way).
 *
 * Hidden states are opaque: a row is a `seq<V>` holding one vector per
 * position, and `zero` is the all-zero vector.
 */
module Masks {

  /** torch.repeat_interleave(m, 2): every entry twice in a row. */
  function RepeatTwice<T>(s: seq<T>): (r: seq<T>)
    ensures |r| == 2 * |s|
    ensures forall k :: 0 <= k < |s| ==> r[2 * k] == s[k] && r[2 * k + 1] == s[k]
  {
    if s == [] then [] else [s[0], s[0]] + RepeatTwice(s[1..])
  }

  /** `log_seqs == 0`: flags the padding positions of one item row. */
  function PaddingFlags(items: seq<int>): (m: seq<bool>)
    ensures |m| == |items|
    ensures forall k :: 0 <= k < |items| ==> (m[k] <==> items[k] == 0)
  {
    seq(|items|, k requires 0 <= k < |items| => items[k] == 0)
  }

  /** The timeline mask: padding flags, doubled when time embeddings are interleaved. */
  function TimelineMask(items: seq<int>, concat: bool): (m: seq<bool>)
    ensures |m| == (if concat then 2 else 1) * |items|
  {
    if concat then RepeatTwice(PaddingFlags(items)) else PaddingFlags(items)
  }

  /**
   * Position p of the (possibly doubled) row is masked exactly when the item it
   * stems from, item p / 2 in concat mode and item p otherwise, is the padding id 0.
   */
  lemma TimelineMaskAt(items: seq<int>, concat: bool, p: nat)
    requires p < |TimelineMask(items, concat)|
    ensures TimelineMask(items, concat)[p] <==> items[if concat then p / 2 else p] == 0
  {
    if concat {
      var flags := PaddingFlags(items);
      var k := p / 2;
      assert k < |items|;
      if p % 2 == 0 {
        assert p == 2 * k;
        assert RepeatTwice(flags)[2 * k] == flags[k];
      } else {
        assert p == 2 * k + 1;
        assert RepeatTwice(flags)[2 * k + 1] == flags[k];
      }
    }
  }

  /** `seqs *= ~timeline_mask.unsqueeze(-1)`: masked positions become the zero vector. */
  function ZeroPadded<V>(s: seq<V>, mask: seq<bool>, zero: V): (r: seq<V>)
    requires |s| == |mask|
    ensures |r| == |s|
    ensures forall k :: 0 <= k < |s| && mask[k] ==> r[k] == zero
    ensures forall k :: 0 <= k < |s| && !mask[k] ==> r[k] == s[k]
  {
    seq(|s|, k requires 0 <= k < |s| => if mask[k] then zero else s[k])
  }

  /** A row whose masked positions all hold the zero vector. */
  ghost predicate PaddingIsZero<V>(s: seq<V>, mask: seq<bool>, zero: V)
    requires |s| == |mask|
  {
    forall k :: 0 <= k < |s| && mask[k] ==> s[k] == zero
  }

  /** Zeroing twice is zeroing once. */
  lemma ZeroPaddedIdempotent<V>(s: seq<V>, mask: seq<bool>, zero: V)
    requires |s| == |mask|
    ensures ZeroPadded(ZeroPadded(s, mask, zero), mask, zero) == ZeroPadded(s, mask, zero)
  {
  }

  /** `torch.tril(torch.ones((n, n)))`: true on and below the diagonal. */
  function Tril(n: nat): (t: seq<seq<bool>>)
    ensures |t| == n && forall i :: 0 <= i < n ==> |t[i]| == n
  {
    seq(n, i => seq(n, j => j <= i))
  }

  /** `~torch.tril(...)`: the attention mask, true where attention is blocked. */
  function CausalMask(n: nat): (m: seq<seq<bool>>)
    ensures |m| == n && forall i :: 0 <= i < n ==> |m[i]| == n
  {
    var t := Tril(n);
    seq(n, i requires 0 <= i < n => seq(n, j requires 0 <= j < n => !t[i][j]))
  }

  /** Query i may not attend to key j exactly when j lies in its future. */
  lemma CausalMaskBlocksFuture(n: nat, i: nat, j: nat)
    requires i < n && j < n
    ensures CausalMask(n)[i][j] <==> j > i
  {
  }

  /** Number of unblocked (false) entries of a mask row. */
  function CountOpen(row: seq<bool>): (c: nat)
    ensures c <= |row|
  {
    if row == [] then 0 else CountOpen(row[..|row| - 1]) + (if row[|row| - 1] then 0 else 1)
  }

  /** Row i of the causal mask leaves open exactly the i+1 keys 0..i. */
  lemma {:induction false} CausalRowOpenCount(n: nat, i: nat)
    requires i < n
    ensures CountOpen(CausalMask(n)[i]) == i + 1
  {
    var row := CausalMask(n)[i];
    OpenPrefix(row, i, n);
    assert row[..n] == row;
  }

  lemma {:induction false} OpenPrefix(row: seq<bool>, i: nat, m: nat)
    requires i < m <= |row|
    requires forall j :: 0 <= j < |row| ==> (row[j] <==> j > i)
    ensures CountOpen(row[..m]) == i + 1
  {
    assert row[..m][..m - 1] == row[..m - 1];
    if m == i + 1 {
      OpenAll(row[..m - 1]);
    } else {
      OpenPrefix(row, i, m - 1);
    }
  }

  lemma {:induction false} OpenAll(row: seq<bool>)
    requires forall j :: 0 <= j < |row| ==> !row[j]
    ensures CountOpen(row) == |row|
  {
    if row != [] {
      OpenAll(row[..|row| - 1]);
    }
  }
}
