/**
 * Sequence layout of NewRec.log2feats (model.py): interleaving item and time
 * embeddings in concat mode, zeroing padded positions before the stack and
 * after every block, and keeping every other position afterwards.
 *
 * The numeric parts are opaque: `emb` is the per-position fused embedding
 * (popularity projection plus position/time encodings), `timeres` the time
 * embedding, `block(i, s)` the i-th attention/feed-forward block and `last`
 * the final layer norm (and gate). Only their lengths matter here.
 */
module EncoderLayout {
  import opened Wrappers
  import opened Masks

  /** `torch.stack((a, b), dim=2).view(B, -1, C)`: a[0], b[0], a[1], b[1], ... */
  function Interleave<V>(a: seq<V>, b: seq<V>): (r: seq<V>)
    requires |a| == |b|
    ensures |r| == 2 * |a|
    ensures forall k :: 0 <= k < |a| ==> r[2 * k] == a[k] && r[2 * k + 1] == b[k]
  {
    if a == [] then [] else [a[0], b[0]] + Interleave(a[1..], b[1..])
  }

  datatype EncodeError = IndexError

  /** `s[np.arange(2 * maxlen, step=2)]`: positions 0, 2, ..., 2*maxlen-2, or IndexError. */
  function EvenPositions<V>(s: seq<V>, maxlen: nat): (r: Result<seq<V>, EncodeError>)
    ensures r.Ok? <==> maxlen == 0 || 2 * maxlen - 2 < |s|
    ensures r.Ok? ==> |r.value| == maxlen && forall k :: 0 <= k < maxlen ==> r.value[k] == s[2 * k]
  {
    if maxlen == 0 || 2 * maxlen - 2 < |s| then Ok(seq(maxlen, k requires 0 <= k < maxlen => s[2 * k]))
    else Err(IndexError)
  }

  /** Downsampling an interleaved row gives back exactly its item slots. */
  lemma {:induction false} EvenPositionsUndoInterleave<V>(a: seq<V>, b: seq<V>)
    requires |a| == |b|
    ensures EvenPositions(Interleave(a, b), |a|) == Ok(a)
  {
    var s := Interleave(a, b);
    var r := EvenPositions(s, |a|);
    assert r.Ok?;
    assert forall k :: 0 <= k < |a| ==> r.value[k] == s[2 * k] == a[k];
    assert r.value == a;
  }

  datatype LayoutOptions = LayoutOptions(timeEmbed: bool, timeEmbedConcat: bool, maxlen: nat)

  /** The row is doubled only when time embeddings exist and are concatenated. */
  predicate Doubled(o: LayoutOptions)
  {
    o.timeEmbed && o.timeEmbedConcat
  }

  function Embedded<V>(o: LayoutOptions, emb: seq<V>, timeres: seq<V>): (r: seq<V>)
    requires |emb| == |timeres|
    ensures |r| == (if Doubled(o) then 2 else 1) * |emb|
  {
    if Doubled(o) then Interleave(emb, timeres) else emb
  }

  ghost predicate BlocksKeepLength<V(!new)>(block: (nat, seq<V>) -> seq<V>)
  {
    forall i: nat, s: seq<V> :: |block(i, s)| == |s|
  }

  /** n blocks, each followed by `seqs *= ~timeline_mask`. */
  function RunBlocks<V(!new)>(s: seq<V>, mask: seq<bool>, zero: V, block: (nat, seq<V>) -> seq<V>, n: nat): (r: seq<V>)
    requires |s| == |mask| && BlocksKeepLength(block)
    ensures |r| == |s|
  {
    if n == 0 then s else ZeroPadded(block(n - 1, RunBlocks(s, mask, zero, block, n - 1)), mask, zero)
  }

  /** Padded positions are zero after any number of blocks when they were zero on entry. */
  lemma RunBlocksKeepPaddingZero<V(!new)>(s: seq<V>, mask: seq<bool>, zero: V, block: (nat, seq<V>) -> seq<V>, n: nat)
    requires |s| == |mask| && BlocksKeepLength(block)
    requires PaddingIsZero(s, mask, zero)
    ensures PaddingIsZero(RunBlocks(s, mask, zero, block, n), mask, zero)
  {
  }

  /** Line 203 as written: downsample whenever `time_embed_concat` is set. */
  function DownsampleAsWritten<V>(o: LayoutOptions, s: seq<V>): Result<seq<V>, EncodeError>
  {
    if o.timeEmbedConcat then EvenPositions(s, o.maxlen) else Ok(s)
  }

  /** Downsample exactly when the row was doubled (the guard of lines 147-152 and 176). */
  function Downsample<V>(o: LayoutOptions, s: seq<V>): Result<seq<V>, EncodeError>
  {
    if Doubled(o) then EvenPositions(s, o.maxlen) else Ok(s)
  }

  /**
   * log2feats on one row: the (possibly interleaved) embeddings are zeroed at
   * padded positions, run through `numBlocks` blocks with zeroing after each,
   * normalised by `last`, and downsampled as line 203 is written. `stacked` is
   * the stack's output before `last`. Wherever the row was doubled or concat
   * is off the result is the guarded `Downsample`; with concat set but no time
   * embeddings the encoder raises IndexError for any maxlen of at least 2.
   */
  method Log2Feats<V(!new)>(o: LayoutOptions, items: seq<int>, emb: seq<V>, timeres: seq<V>, zero: V,
                      numBlocks: nat, block: (nat, seq<V>) -> seq<V>, last: seq<V> -> seq<V>)
    returns (stacked: seq<V>, feats: Result<seq<V>, EncodeError>)
    requires |emb| == |items| && |timeres| == |items|
    requires BlocksKeepLength(block)
    requires forall s: seq<V> :: |last(s)| == |s|
    ensures var mask := TimelineMask(items, Doubled(o));
      && |stacked| == |mask|
      && PaddingIsZero(stacked, mask, zero)
      && stacked == RunBlocks(ZeroPadded(Embedded(o, emb, timeres), mask, zero), mask, zero, block, numBlocks)
    ensures feats == DownsampleAsWritten(o, last(stacked))
    ensures Doubled(o) || !o.timeEmbedConcat ==> feats == Downsample(o, last(stacked))
    ensures !o.timeEmbed && o.timeEmbedConcat && |items| == o.maxlen >= 2 ==> feats.Err?
  {
    var mask := TimelineMask(items, o.timeEmbed && o.timeEmbedConcat);
    var seqs := if o.timeEmbed && o.timeEmbedConcat then Interleave(emb, timeres) else emb;
    seqs := ZeroPadded(seqs, mask, zero);
    ghost var start := seqs;
    var i := 0;
    while i < numBlocks
      invariant i <= numBlocks
      invariant |seqs| == |mask|
      invariant seqs == RunBlocks(start, mask, zero, block, i)
      invariant PaddingIsZero(seqs, mask, zero)
    {
      seqs := block(i, seqs);
      seqs := ZeroPadded(seqs, mask, zero);
      i := i + 1;
    }
    stacked := seqs;
    feats := if o.timeEmbedConcat then EvenPositions(last(seqs), o.maxlen) else Ok(last(seqs));
  }

  /**
   * For a row of `maxlen` items the encoder always yields `maxlen` vectors;
   * in concat mode vector k comes from the item slot 2k, never a time slot.
   */
  lemma FeatsHaveOneVectorPerItem<V>(o: LayoutOptions, s: seq<V>, items: seq<int>)
    requires |items| == o.maxlen
    requires |s| == |TimelineMask(items, Doubled(o))|
    ensures Downsample(o, s).Ok?
    ensures |Downsample(o, s).value| == o.maxlen
    ensures Doubled(o) ==> forall k :: 0 <= k < o.maxlen ==> Downsample(o, s).value[k] == s[2 * k]
  {
  }

  /** The line as written and the guarded one differ only when concat is set without time embeddings. */
  lemma DownsampleAgreesWhenGuarded<V>(o: LayoutOptions, s: seq<V>)
    requires o.timeEmbed || !o.timeEmbedConcat
    ensures DownsampleAsWritten(o, s) == Downsample(o, s)
  {
  }

  /**
   * `time_embed_concat` without `time_embed`: the row is not doubled, yet line
   * 203 indexes position 2*maxlen-2, which raises IndexError for maxlen 2.
   */
  lemma AsWrittenConcatWithoutTimeFails()
    ensures var o := LayoutOptions(false, true, 2);
      var items := [5, 7];
      && |TimelineMask(items, Doubled(o))| == 2
      && DownsampleAsWritten(o, [10, 20]).Err?
      && Downsample(o, [10, 20]) == Ok([10, 20])
  {
  }

  /**
   * In concat mode the causal mask runs over 2T slots, so the item slot 2k,
   * whose output is kept, is blocked from its own time slot 2k+1.
   */
  lemma ItemSlotBlindToOwnTime(t: nat, k: nat)
    requires k < t
    ensures CausalMask(2 * t)[2 * k][2 * k + 1]
    ensures k > 0 ==> !CausalMask(2 * t)[2 * k][2 * k - 1]
  {
    CausalMaskBlocksFuture(2 * t, 2 * k, 2 * k + 1);
    if k > 0 {
      CausalMaskBlocksFuture(2 * t, 2 * k, 2 * k - 1);
    }
  }
}
