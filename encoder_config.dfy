/**
 * The architecture rules checked and derived when the NewRec encoder is
 * constructed (model.py, NewRec.__init__), and the stricter assertions of
 * NewB4Rec.__init__.
 */
module EncoderConfig {
  import opened Wrappers

  /** The options of the encoder that decide its shape. */
  datatype Options = Options(
    baseDim1: int,       // width of one month-popularity bucket
    inputUnits1: int,    // width of the month-popularity feature
    baseDim2: int,       // width of one week-popularity bucket
    inputUnits2: int,    // width of the week-popularity feature
    hiddenUnits: int,    // width of one head
    itemgrp: bool,       // co-occurrence group branch enabled
    trajForm: string,    // "", "mlp" or "attention"
    timeEmbed: bool,     // time embeddings enabled
    timeEmbedConcat: bool) // time embeddings interleaved with the items rather than added

  /** What construction derives from the options. */
  datatype Arch = Arch(
    numHeads: nat,       // 1 + one per side branch fused through attention
    width: int,          // hidden width of the attention stack
    hasGate: bool)       // a gate merges the two halves after the stack

  datatype ConfigError = AssertionError | ZeroDivisionError | AttributeError | RuntimeError

  /** `base == 0 or units % base == 0`: the feature is a whole number of buckets. */
  predicate WidthAccepted(base: int, units: int)
  {
    base == 0 || units % base == 0
  }

  /** A side branch that becomes an extra attention head. */
  predicate AttentionTrajectory(o: Options)
  {
    o.trajForm == "attention"
  }

  /** NewRec construction: the two divisibility assertions, then the derived shape. */
  function Construct(o: Options): (r: Result<Arch, ConfigError>)
    ensures r.Ok? <==> WidthAccepted(o.baseDim1, o.inputUnits1) && WidthAccepted(o.baseDim2, o.inputUnits2)
    ensures r.Err? ==> r.error == AssertionError
    ensures r.Ok? ==> r.value.numHeads == 1 + (if o.itemgrp then 1 else 0) + (if AttentionTrajectory(o) then 1 else 0)
    ensures r.Ok? ==> r.value.width == o.hiddenUnits * r.value.numHeads
    ensures r.Ok? ==> (r.value.hasGate <==> r.value.numHeads == 2)
    ensures r.Ok? ==> (r.value.hasGate <==> o.itemgrp != AttentionTrajectory(o))
  {
    if !WidthAccepted(o.baseDim1, o.inputUnits1) || !WidthAccepted(o.baseDim2, o.inputUnits2) then
      Err(AssertionError)
    else
      var heads := 1 + (if o.itemgrp then 1 else 0) + (if AttentionTrajectory(o) then 1 else 0);
      Ok(Arch(heads, o.hiddenUnits * heads, heads == 2))
  }

  /**
   * A nonzero bucket width divides its feature width exactly once construction
   * has succeeded, so the popularity vector splits into whole buckets.
   */
  lemma AcceptedWidthsSplitIntoBuckets(o: Options)
    requires Construct(o).Ok?
    ensures o.baseDim1 != 0 ==> o.inputUnits1 == (o.inputUnits1 / o.baseDim1) * o.baseDim1
    ensures o.baseDim2 != 0 ==> o.inputUnits2 == (o.inputUnits2 / o.baseDim2) * o.baseDim2
  {
  }

  /** `embed_layer2` is created only when there are exactly two heads (model.py:100-101). */
  predicate HasSecondEmbedding(a: Arch)
  {
    a.numHeads == 2
  }

  /** log2feats projects the item-group feature (line 159) and the user trajectory (line 172) through `embed_layer2`. */
  predicate UsesSecondEmbedding(o: Options)
  {
    o.itemgrp || AttentionTrajectory(o)
  }

  /** Item and time embeddings are interleaved, so the row has 2T positions (model.py:152-153). */
  predicate DoubledRow(o: Options)
  {
    o.timeEmbed && o.timeEmbedConcat
  }

  /** Width of the hidden state that log2feats returns (model.py:199-201). */
  function OutputWidth(a: Arch): int
  {
    if a.numHeads == 2 then a.width / a.numHeads else a.width
  }

  /**
   * The channel width of log2feats' hidden state for a constructed encoder,
   * given that the downsampling at line 204 succeeds (that IndexError is
   * modelled by EncoderLayout.Log2Feats), or the error raised before it:
   * AttributeError when a side branch reaches for an `embed_layer2` that was
   * never created, RuntimeError when a side feature of T positions is
   * concatenated onto an interleaved row of 2T positions (lines 160 and 173).
   */
  function FeatureWidth(o: Options): Result<int, ConfigError>
    requires Construct(o).Ok?
  {
    var a := Construct(o).value;
    if UsesSecondEmbedding(o) && !HasSecondEmbedding(a) then Err(AttributeError)
    else if UsesSecondEmbedding(o) && DoubledRow(o) then Err(RuntimeError)
    else Ok(OutputWidth(a))
  }

  /**
   * With both side branches on there are three heads and no `embed_layer2`, so
   * log2feats fails before any concatenation; with one side branch on an
   * interleaved row cannot take the side feature; in every other configuration
   * the hidden state is one head wide, the gate halving the two-head state.
   * Whether the downsampling at line 204 then succeeds is a matter of the row
   * layout (EncoderLayout.Log2Feats), not of the channel width.
   */
  lemma FeatureWidthByBranches(o: Options)
    requires Construct(o).Ok?
    ensures FeatureWidth(o) == Err(AttributeError) <==> o.itemgrp && AttentionTrajectory(o)
    ensures FeatureWidth(o) == Err(RuntimeError) <==> DoubledRow(o) && o.itemgrp != AttentionTrajectory(o)
    ensures FeatureWidth(o).Ok? <==> !UsesSecondEmbedding(o) || (o.itemgrp != AttentionTrajectory(o) && !DoubledRow(o))
    ensures FeatureWidth(o).Ok? ==> FeatureWidth(o).value == o.hiddenUnits
  {
    var a := Construct(o).value;
    if a.numHeads == 2 {
      assert a.width == o.hiddenUnits * 2;
      assert a.width / 2 == o.hiddenUnits;
    }
  }

  /**
   * NewB4Rec asserts `input_units % base_dim == 0` for the month and then the
   * week feature, with no guard for a zero bucket width, which raises
   * ZeroDivisionError instead.
   */
  function ConstructB4(o: Options): (r: Result<(), ConfigError>)
    ensures r.Ok? <==> o.baseDim1 != 0 && o.baseDim2 != 0 && WidthAccepted(o.baseDim1, o.inputUnits1) && WidthAccepted(o.baseDim2, o.inputUnits2)
    ensures r == Err(ZeroDivisionError) <==> o.baseDim1 == 0 || (o.inputUnits1 % o.baseDim1 == 0 && o.baseDim2 == 0)
    ensures r == Err(AssertionError) <==>
      || (o.baseDim1 != 0 && o.inputUnits1 % o.baseDim1 != 0)
      || (o.baseDim1 != 0 && o.inputUnits1 % o.baseDim1 == 0 && o.baseDim2 != 0 && o.inputUnits2 % o.baseDim2 != 0)
  {
    if o.baseDim1 == 0 then Err(ZeroDivisionError)
    else if o.inputUnits1 % o.baseDim1 != 0 then Err(AssertionError)
    else if o.baseDim2 == 0 then Err(ZeroDivisionError)
    else if o.inputUnits2 % o.baseDim2 != 0 then Err(AssertionError)
    else Ok(())
  }

  /** Every NewB4Rec configuration is a valid NewRec one; the converse fails on a zero bucket width. */
  lemma B4StricterThanNewRec(o: Options)
    ensures ConstructB4(o).Ok? ==> Construct(o).Ok?
    ensures o.baseDim1 == 0 ==> ConstructB4(o).Err?
  {
  }
}
