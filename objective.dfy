/**
 * The newrec training objective (main.py, newrec step; model.py, regloss): two
 * BCE-with-logits means over the non-padded target positions plus a weighted
 * regulariser. Per-element BCE values and the regulariser's torch losses are
 * opaque reals; what is modelled is which positions enter, how the terms are
 * combined, and when the result is NaN or not a tensor at all.
 */
module Objective {
  import opened Wrappers
  import opened Indexing

  /** A float that may be NaN; NaN absorbs every arithmetic operation. */
  datatype Scalar = Num(v: real) | NaN

  function Add(a: Scalar, b: Scalar): Scalar
  {
    if a.NaN? || b.NaN? then NaN else Num(a.v + b.v)
  }

  function Scale(c: real, a: Scalar): Scalar
  {
    if a.NaN? then NaN else Num(c * a.v)
  }

  /** A Python number (no gradient) or an autograd tensor. */
  datatype Value = Plain(s: Scalar) | Tensor(s: Scalar)

  /** `a + b`: a tensor as soon as one side is. */
  function Plus(a: Value, b: Value): (r: Value)
    ensures r.Tensor? <==> a.Tensor? || b.Tensor?
    ensures r.s == Add(a.s, b.s)
  {
    if a.Tensor? || b.Tensor? then Tensor(Add(a.s, b.s)) else Plain(Add(a.s, b.s))
  }

  /** `c * x` for a Python float c. */
  function Times(c: real, x: Value): (r: Value)
    ensures r.Tensor? <==> x.Tensor?
    ensures r.s == Scale(c, x.s)
  {
    if x.Tensor? then Tensor(Scale(c, x.s)) else Plain(Scale(c, x.s))
  }

  function Sum(xs: seq<real>, term: real -> real): real
  {
    if xs == [] then 0.0 else term(xs[0]) + Sum(xs[1..], term)
  }

  /** Mean reduction of the per-element loss `term` over xs; the mean of nothing is NaN. */
  function MeanLoss(xs: seq<real>, term: real -> real): (r: Scalar)
    ensures r.NaN? <==> xs == []
  {
    if xs == [] then NaN else Num(Sum(xs, term) / (|xs| as real))
  }

  /** The torch losses regloss may add; each is computed only when its flag is set. */
  datatype RegTerms = RegTerms(triplet: real, cosPos: real, cosNeg: real)

  /** model.regloss: the integer 0 when neither regulariser is on, else the sum of the enabled terms. */
  function RegLoss(tripletLoss: bool, cosLoss: bool, terms: RegTerms): (r: Value)
    ensures r.Tensor? <==> tripletLoss || cosLoss
    ensures r.s == Num((if tripletLoss then terms.triplet else 0.0) + (if cosLoss then terms.cosPos + terms.cosNeg else 0.0))
  {
    if !tripletLoss && !cosLoss then Plain(Num(0.0))
    else
      var afterTriplet := if tripletLoss then Plus(Plain(Num(0.0)), Tensor(Num(terms.triplet))) else Plain(Num(0.0));
      if cosLoss then Plus(Plus(afterTriplet, Tensor(Num(terms.cosPos))), Tensor(Num(terms.cosNeg))) else afterTriplet
  }

  /** One newrec batch: target ids (0 = padding) and the logits of the positive and negative items. */
  datatype Batch = Batch(pos: seq<seq<int>>, posLogits: seq<seq<real>>, negLogits: seq<seq<real>>)

  /** Every tensor of the batch has the shape (B, T). */
  predicate Shaped(batch: Batch, t: nat)
  {
    && |batch.posLogits| == |batch.pos| && |batch.negLogits| == |batch.pos|
    && Rectangular(batch.pos, t) && Rectangular(batch.posLogits, t) && Rectangular(batch.negLogits, t)
  }

  /** The flattened tensors line up entry by entry. */
  predicate Aligned(batch: Batch)
  {
    |Flatten(batch.posLogits)| == |Flatten(batch.pos)| && |Flatten(batch.negLogits)| == |Flatten(batch.pos)|
  }

  lemma ShapedIsAligned(batch: Batch, t: nat)
    requires Shaped(batch, t)
    ensures Aligned(batch)
  {
    FlattenLength(batch.pos, t);
    FlattenLength(batch.posLogits, t);
    FlattenLength(batch.negLogits, t);
  }

  /** `logits[np.where(pos != 0)]`. */
  function Selected(pos: seq<seq<int>>, logits: seq<seq<real>>): seq<real>
    requires |Flatten(logits)| == |Flatten(pos)|
  {
    WhereNonzero(Flatten(logits), Flatten(pos))
  }

  /** The ranking part: the positive and the negative BCE means over the same positions. */
  function RankingLoss(batch: Batch, posTerm: real -> real, negTerm: real -> real): Scalar
    requires Aligned(batch)
  {
    Add(MeanLoss(Selected(batch.pos, batch.posLogits), posTerm), MeanLoss(Selected(batch.pos, batch.negLogits), negTerm))
  }

  datatype Flags = Flags(onlyReg: bool, tripletLoss: bool, cosLoss: bool, regCoef: real)

  datatype StepError = AttributeError

  /**
   * The loss of one newrec step and the printed BCE part. `loss.backward()`
   * on a plain number (only_reg with neither regulariser) raises AttributeError.
   */
  function StepLoss(batch: Batch, flags: Flags, terms: RegTerms, posTerm: real -> real, negTerm: real -> real): Result<(Scalar, Scalar), StepError>
    requires Aligned(batch)
  {
    var ranking := if flags.onlyReg then Num(0.0) else RankingLoss(batch, posTerm, negTerm);
    if flags.onlyReg && !flags.tripletLoss && !flags.cosLoss then Err(AttributeError)
    else Ok((Add(ranking, Scale(flags.regCoef, RegLoss(flags.tripletLoss, flags.cosLoss, terms).s)), ranking))
  }

  /** The step as main.py writes it: `loss = 0`, then `+=` for each enabled term. */
  method ComputeStepLoss(batch: Batch, flags: Flags, terms: RegTerms, posTerm: real -> real, negTerm: real -> real)
    returns (r: Result<(Scalar, Scalar), StepError>)
    requires Aligned(batch)
    ensures r == StepLoss(batch, flags, terms, posTerm, negTerm)
  {
    var loss := Plain(Num(0.0));
    var bceloss: Scalar;
    if flags.onlyReg {
      bceloss := Num(0.0);
    } else {
      var indices := Nonzero(Flatten(batch.pos));
      loss := Plus(loss, Tensor(MeanLoss(Gather(Flatten(batch.posLogits), indices), posTerm)));
      loss := Plus(loss, Tensor(MeanLoss(Gather(Flatten(batch.negLogits), indices), negTerm)));
      bceloss := loss.s;
    }
    loss := Plus(loss, Times(flags.regCoef, RegLoss(flags.tripletLoss, flags.cosLoss, terms)));
    if loss.Plain? {
      return Err(AttributeError);
    }
    r := Ok((loss.s, bceloss));
  }

  /**
   * The k-th entries of both BCE terms come from the same flat position n, and
   * that position holds a real (nonzero) target; both terms have one entry per
   * nonzero target.
   */
  lemma BothTermsUseTargetPositions(batch: Batch, k: nat)
    requires Aligned(batch)
    requires k < |Selected(batch.pos, batch.posLogits)|
    ensures |Selected(batch.pos, batch.negLogits)| == |Selected(batch.pos, batch.posLogits)| == |Nonzero(Flatten(batch.pos))|
    ensures var n := Nonzero(Flatten(batch.pos))[k];
      && n < |Flatten(batch.pos)| && Flatten(batch.pos)[n] != 0
      && Selected(batch.pos, batch.posLogits)[k] == Flatten(batch.posLogits)[n]
      && Selected(batch.pos, batch.negLogits)[k] == Flatten(batch.negLogits)[n]
  {
  }

  /** Logits at padded positions (target 0) never reach the loss. */
  lemma PaddedLogitsIgnored(batch: Batch, other: Batch, t: nat, posTerm: real -> real, negTerm: real -> real)
    requires Shaped(batch, t) && Shaped(other, t) && other.pos == batch.pos
    requires forall i, j :: 0 <= i < |batch.pos| && 0 <= j < t && batch.pos[i][j] != 0 ==>
      other.posLogits[i][j] == batch.posLogits[i][j] && other.negLogits[i][j] == batch.negLogits[i][j]
    ensures Aligned(batch) && Aligned(other)
    ensures RankingLoss(batch, posTerm, negTerm) == RankingLoss(other, posTerm, negTerm)
  {
    ShapedIsAligned(batch, t);
    ShapedIsAligned(other, t);
    SelectionIgnoresPadding(batch.pos, batch.posLogits, other.posLogits, t);
    SelectionIgnoresPadding(batch.pos, batch.negLogits, other.negLogits, t);
  }

  lemma SelectionIgnoresPadding(pos: seq<seq<int>>, a: seq<seq<real>>, b: seq<seq<real>>, t: nat)
    requires |a| == |pos| && |b| == |pos|
    requires Rectangular(pos, t) && Rectangular(a, t) && Rectangular(b, t)
    requires forall i, j :: 0 <= i < |pos| && 0 <= j < t && pos[i][j] != 0 ==> a[i][j] == b[i][j]
    ensures |Flatten(a)| == |Flatten(pos)| && |Flatten(b)| == |Flatten(pos)|
    ensures Selected(pos, a) == Selected(pos, b)
  {
    FlattenLength(pos, t);
    FlattenLength(a, t);
    FlattenLength(b, t);
    var idx := Nonzero(Flatten(pos));
    forall k | 0 <= k < |idx| ensures Flatten(a)[idx[k]] == Flatten(b)[idx[k]] {
      var n := idx[k];
      FlatIndexInGrid(n, |pos|, t);
      var i, j := n / t, n % t;
      FlattenAt(pos, t, i, j);
      FlattenAt(a, t, i, j);
      FlattenAt(b, t, i, j);
    }
  }

  /** With only_reg set (and a regulariser on) the loss is the weighted regulariser alone. */
  lemma OnlyRegIsWeightedRegulariser(batch: Batch, flags: Flags, terms: RegTerms, posTerm: real -> real, negTerm: real -> real)
    requires Aligned(batch)
    requires flags.onlyReg && (flags.tripletLoss || flags.cosLoss)
    ensures var r := StepLoss(batch, flags, terms, posTerm, negTerm);
      r.Ok? && r.value.1 == Num(0.0) && r.value.0 == Num(flags.regCoef * RegLoss(flags.tripletLoss, flags.cosLoss, terms).s.v)
  {
  }

  /** With neither regulariser on the loss is the ranking part, unless only_reg leaves nothing to differentiate. */
  lemma NoRegulariserIsRankingLoss(batch: Batch, flags: Flags, terms: RegTerms, posTerm: real -> real, negTerm: real -> real)
    requires Aligned(batch)
    requires !flags.tripletLoss && !flags.cosLoss
    ensures flags.onlyReg ==> StepLoss(batch, flags, terms, posTerm, negTerm) == Err(AttributeError)
    ensures !flags.onlyReg ==>
      StepLoss(batch, flags, terms, posTerm, negTerm) == Ok((RankingLoss(batch, posTerm, negTerm), RankingLoss(batch, posTerm, negTerm)))
  {
  }

  /** A batch with no real target at all yields a NaN loss, since the mean of nothing is NaN. */
  lemma AllPaddingIsNaN(batch: Batch, flags: Flags, terms: RegTerms, posTerm: real -> real, negTerm: real -> real)
    requires Aligned(batch)
    requires !flags.onlyReg
    requires forall n :: 0 <= n < |Flatten(batch.pos)| ==> Flatten(batch.pos)[n] == 0
    ensures StepLoss(batch, flags, terms, posTerm, negTerm) == Ok((NaN, NaN))
  {
    NoNonzero(Flatten(batch.pos), 0);
  }
}
