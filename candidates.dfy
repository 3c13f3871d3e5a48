/**
 * NewB4Rec's candidate layout (model.py, NewB4Rec.forward) and the column the
 * newb4rec training step scores against (main.py). Item ids are kept as ids:
 * logit (r, k) is the score of candidate k of flat row r.
 */
module Candidates {
  import opened Indexing

  /** A batch of B rows of T positions. */
  predicate Grid(g: seq<seq<int>>, b: nat, t: nat)
  {
    |g| == b && Rectangular(g, t)
  }

  /** The shape (B, T, c) of the draws. */
  predicate DrawShape(sampled: seq<seq<seq<int>>>, b: nat, t: nat, c: nat)
  {
    && |sampled| == b
    && (forall i :: 0 <= i < b ==> |sampled[i]| == t)
    && (forall i, j :: 0 <= i < b && 0 <= j < t ==> |sampled[i][j]| == c)
  }

  /** `np.random.choice(np.arange(1, item_num + 1), size=(B, T, c))`: c draws in [1, item_num] per position. */
  predicate ValidDraws(sampled: seq<seq<seq<int>>>, b: nat, t: nat, c: nat, itemNum: int)
  {
    && DrawShape(sampled, b, t, c)
    && (forall i, j, k :: 0 <= i < b && 0 <= j < t && 0 <= k < c ==> 1 <= sampled[i][j][k] <= itemNum)
  }

  /** `np.append(sampled, np.expand_dims(seqs, -1), axis=2)`. */
  function CandidateGrid(sampled: seq<seq<seq<int>>>, seqs: seq<seq<int>>, b: nat, t: nat, c: nat): (g: seq<seq<seq<int>>>)
    requires Grid(seqs, b, t) && DrawShape(sampled, b, t, c)
    ensures |g| == b && forall i :: 0 <= i < b ==> |g[i]| == t
  {
    seq(b, i requires 0 <= i < b => seq(t, j requires 0 <= j < t => sampled[i][j] + [seqs[i][j]]))
  }

  lemma CandidateCell(sampled: seq<seq<seq<int>>>, seqs: seq<seq<int>>, b: nat, t: nat, c: nat, i: nat, j: nat)
    requires Grid(seqs, b, t) && DrawShape(sampled, b, t, c)
    requires i < b && j < t
    ensures Rectangular(CandidateGrid(sampled, seqs, b, t, c), t)
    ensures CandidateGrid(sampled, seqs, b, t, c)[i][j] == sampled[i][j] + [seqs[i][j]]
    ensures |CandidateGrid(sampled, seqs, b, t, c)[i][j]| == c + 1
  {
  }

  /** `np.tile(np.expand_dims(times, -1), (1, 1, c + 1))`. */
  function TimeGrid(times: seq<seq<int>>, b: nat, t: nat, c: nat): (g: seq<seq<seq<int>>>)
    requires Grid(times, b, t)
    ensures |g| == b && forall i :: 0 <= i < b ==> |g[i]| == t
  {
    seq(b, i requires 0 <= i < b => seq(t, j requires 0 <= j < t => seq(c + 1, k => times[i][j])))
  }

  /**
   * Every position has c + 1 candidates: its c draws, all real item ids, then
   * the sequence's own item in the last column; every candidate is looked up
   * at that position's time indices.
   */
  lemma CandidateLayout(sampled: seq<seq<seq<int>>>, seqs: seq<seq<int>>, times: seq<seq<int>>,
                        b: nat, t: nat, c: nat, itemNum: int, i: nat, j: nat)
    requires Grid(seqs, b, t) && Grid(times, b, t) && ValidDraws(sampled, b, t, c, itemNum)
    requires i < b && j < t
    ensures var cands := CandidateGrid(sampled, seqs, b, t, c)[i][j];
      && |cands| == c + 1
      && cands[..c] == sampled[i][j]
      && (forall k :: 0 <= k < c ==> 1 <= cands[k] <= itemNum)
      && cands[c] == seqs[i][j]
    ensures var ts := TimeGrid(times, b, t, c)[i][j];
      |ts| == c + 1 && forall k :: 0 <= k < c + 1 ==> ts[k] == times[i][j]
  {
    var cands := CandidateGrid(sampled, seqs, b, t, c)[i][j];
    assert cands == sampled[i][j] + [seqs[i][j]];
  }

  /** `logits.view(-1, c + 1)`: one score row per (row, position), row-major. */
  function ScoreRows(g: seq<seq<seq<int>>>): seq<seq<int>>
  {
    Flatten(g)
  }

  /** `logits[labels != 0]` with `labels.view(-1)`: the score rows of labelled positions. */
  function TrainingRows(g: seq<seq<seq<int>>>, labels: seq<seq<int>>): seq<seq<int>>
    requires |Flatten(g)| == |Flatten(labels)|
  {
    WhereNonzero(ScoreRows(g), Flatten(labels))
  }

  /** `logits.shape[1] - 1`: the class every scored row is trained towards. */
  function TargetColumn(width: nat): int
  {
    width - 1
  }

  /** `CrossEntropyLoss(ignore_index=0)`: a row whose target is class 0 contributes nothing. */
  const IgnoreIndex: int := 0

  /**
   * The training rows whose target counts towards the loss: all of them, unless
   * the target column is the ignored class 0, which happens exactly when no
   * candidate is sampled (`compare_size = itemnum // loss_size` is 0 once
   * itemnum < loss_size).
   */
  function CountedRows(g: seq<seq<seq<int>>>, labels: seq<seq<int>>, c: nat): seq<seq<int>>
    requires |Flatten(g)| == |Flatten(labels)|
  {
    if TargetColumn(c + 1) == IgnoreIndex then [] else TrainingRows(g, labels)
  }

  /** `row` is the candidate row of the labelled position (i, j) and its target column holds seqs[i][j]. */
  predicate ScoredFrom(row: seq<int>, g: seq<seq<seq<int>>>, labels: seq<seq<int>>, seqs: seq<seq<int>>, c: nat, i: int, j: int)
  {
    && 0 <= i < |g| && 0 <= i < |labels| && 0 <= i < |seqs|
    && 0 <= j < |g[i]| && 0 <= j < |labels[i]| && 0 <= j < |seqs[i]|
    && labels[i][j] != 0 && row == g[i][j] && |row| == c + 1 && row[TargetColumn(c + 1)] == seqs[i][j]
  }

  /**
   * Scored row k is the candidate row of the labelled position (n / T, n % T),
   * where n is the k-th nonzero flat label index, and its target column holds
   * the item appended there.
   */
  lemma ScoredRowOrigin(sampled: seq<seq<seq<int>>>, seqs: seq<seq<int>>, labels: seq<seq<int>>,
                        b: nat, t: nat, c: nat, k: nat)
    requires Grid(seqs, b, t) && Grid(labels, b, t) && DrawShape(sampled, b, t, c)
    requires k < |Nonzero(Flatten(labels))|
    ensures |Flatten(CandidateGrid(sampled, seqs, b, t, c))| == |Flatten(labels)|
    ensures t > 0
    ensures var g := CandidateGrid(sampled, seqs, b, t, c);
      var n := Nonzero(Flatten(labels))[k];
      ScoredFrom(TrainingRows(g, labels)[k], g, labels, seqs, c, n / t, n % t)
  {
    var g := CandidateGrid(sampled, seqs, b, t, c);
    var flat := Flatten(labels);
    FlattenLength(g, t);
    FlattenLength(labels, t);
    var n := Nonzero(flat)[k];
    assert n < b * t;
    FlatIndexInGrid(n, b, t);
    var i, j := n / t, n % t;
    FlattenAt(labels, t, i, j);
    CandidateCell(sampled, seqs, b, t, c, i, j);
    FlattenAt(g, t, i, j);
    assert TrainingRows(g, labels)[k] == g[i][j];
  }

  /** Every labelled position (i, j) has a training row: the row of its own candidates. */
  lemma LabelledPositionScored(sampled: seq<seq<seq<int>>>, seqs: seq<seq<int>>, labels: seq<seq<int>>,
                               b: nat, t: nat, c: nat, i: nat, j: nat)
    requires Grid(seqs, b, t) && Grid(labels, b, t) && DrawShape(sampled, b, t, c)
    requires i < b && j < t && labels[i][j] != 0
    ensures |Flatten(CandidateGrid(sampled, seqs, b, t, c))| == |Flatten(labels)|
    ensures var g := CandidateGrid(sampled, seqs, b, t, c);
      exists k :: 0 <= k < |TrainingRows(g, labels)| && ScoredFrom(TrainingRows(g, labels)[k], g, labels, seqs, c, i, j)
  {
    var g := CandidateGrid(sampled, seqs, b, t, c);
    FlattenLength(g, t);
    FlattenLength(labels, t);
    var flat := Flatten(labels);
    FlattenAt(labels, t, i, j);
    CandidateCell(sampled, seqs, b, t, c, i, j);
    FlattenAt(g, t, i, j);
    var k := WhereNonzeroCovers(Flatten(g), flat, i * t + j);
    assert ScoredFrom(TrainingRows(g, labels)[k], g, labels, seqs, c, i, j);
  }

  /**
   * With at least one sampled candidate every labelled position (i, j) counts
   * towards the loss, through the row of its own candidates; with none, every
   * target is the ignored class and no row counts.
   */
  lemma LabelledPositionCounted(sampled: seq<seq<seq<int>>>, seqs: seq<seq<int>>, labels: seq<seq<int>>,
                                b: nat, t: nat, c: nat, i: nat, j: nat)
    requires Grid(seqs, b, t) && Grid(labels, b, t) && DrawShape(sampled, b, t, c)
    requires i < b && j < t && labels[i][j] != 0
    ensures |Flatten(CandidateGrid(sampled, seqs, b, t, c))| == |Flatten(labels)|
    ensures var g := CandidateGrid(sampled, seqs, b, t, c);
      && (c >= 1 ==> exists k :: 0 <= k < |CountedRows(g, labels, c)| && ScoredFrom(CountedRows(g, labels, c)[k], g, labels, seqs, c, i, j))
      && (c == 0 ==> CountedRows(g, labels, c) == [])
  {
    var g := CandidateGrid(sampled, seqs, b, t, c);
    LabelledPositionScored(sampled, seqs, labels, b, t, c, i, j);
    if c >= 1 {
      var rows := TrainingRows(g, labels);
      var k :| 0 <= k < |rows| && ScoredFrom(rows[k], g, labels, seqs, c, i, j);
      assert CountedRows(g, labels, c) == rows;
      assert ScoredFrom(CountedRows(g, labels, c)[k], g, labels, seqs, c, i, j);
    }
  }
}
