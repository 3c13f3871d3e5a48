/**
 * Loading a saved state dict before training (main.py): the transfer / few-shot
 * merge that drops the dataset-specific tables, the non-strict resume load that
 * also reads the epoch back out of the path, the mode flags those set, and the
 * epoch loop that trains and writes checkpoints.
 */
module Resume {
  import opened Wrappers
  import opened Checkpoint

  type Key = string

  /** Dataset preprocessing that is not transferred between datasets. */
  const Dropped: seq<Key> := ["popularity_enc.month_pop_table", "popularity_enc.week_pop_table", "position_enc.pos_table"]

  /** Every failure while loading is re-raised as ValueError('loading state dict failed'). */
  datatype LoadError = ValueError

  /** What `load_state_dict` copies: each model entry present in `src` takes its value. */
  function PartialLoad<W>(model: map<Key, W>, src: map<Key, W>): (r: map<Key, W>)
    ensures r.Keys == model.Keys
  {
    map k | k in model :: if k in src then src[k] else model[k]
  }

  /** The loaded mapping after the three `del`s. */
  function Kept<W>(loaded: map<Key, W>): map<Key, W>
  {
    loaded - set k | k in Dropped
  }

  /**
   * The transfer load succeeds exactly when every dropped key is present (else
   * `del` raises KeyError) and every other loaded key is a model key (else the
   * strict load of the updated dict finds unexpected keys).
   */
  predicate TransferAccepts<W>(model: map<Key, W>, loaded: map<Key, W>)
  {
    (forall k :: k in Dropped ==> k in loaded) && Kept(loaded).Keys <= model.Keys
  }

  /** `model_dict.update(loaded)` then a strict load is the same as copying the kept entries in. */
  lemma UpdateThenStrictLoad<W>(model: map<Key, W>, loaded: map<Key, W>)
    requires TransferAccepts(model, loaded)
    ensures (model + Kept(loaded)).Keys == model.Keys
    ensures model + Kept(loaded) == PartialLoad(model, Kept(loaded))
  {
  }

  /**
   * After a transfer load the dataset tables keep the model's own values, every
   * other loaded entry overwrites the model's, and model entries absent from the
   * checkpoint keep their values.
   */
  lemma TransferMergeValues<W>(model: map<Key, W>, loaded: map<Key, W>, k: Key)
    requires k in model
    ensures var r := PartialLoad(model, Kept(loaded));
      && (k in Dropped ==> r[k] == model[k])
      && (k !in Dropped && k in loaded ==> r[k] == loaded[k])
      && (k !in loaded ==> r[k] == model[k])
  {
  }

  /** A load of `model + src` copies what a load of src copies, and finds no unexpected key exactly when src has none. */
  lemma LoadUpdatedDict<W>(model: map<Key, W>, src: map<Key, W>)
    ensures PartialLoad(model, model + src) == PartialLoad(model, src)
    ensures (model + src).Keys == model.Keys <==> src.Keys <= model.Keys
  {
  }

  /** The `del loaded[key]` loop: None where a key is missing (KeyError), else the kept entries. */
  method DropDatasetTables<W>(loaded: map<Key, W>) returns (r: Option<map<Key, W>>)
    ensures r.None? <==> exists k :: k in Dropped && k !in loaded
    ensures r.Some? ==> r.value == Kept(loaded)
  {
    var rest := loaded;
    var i := 0;
    while i < |Dropped|
      invariant 0 <= i <= |Dropped|
      invariant forall j :: 0 <= j < i ==> Dropped[j] in loaded
      invariant rest == loaded - set j | 0 <= j < i :: Dropped[j]
    {
      if Dropped[i] !in rest {
        return None;
      }
      rest := rest - {Dropped[i]};
      i := i + 1;
    }
    assert (set j | 0 <= j < |Dropped| :: Dropped[j]) == set k | k in Dropped;
    r := Some(rest);
  }

  /** The entries a run reads and writes while loading and training. */
  class Run<W> {
    var weights: map<Key, W>
    var inferenceOnly: bool
    var numEpochs: int
    var epochStart: int
    const transfer: bool
    const fsTransfer: bool
    const fsNumEpochs: int

    constructor (weights: map<Key, W>, inferenceOnly: bool, numEpochs: int, transfer: bool, fsTransfer: bool, fsNumEpochs: int)
      ensures this.weights == weights && this.inferenceOnly == inferenceOnly && this.numEpochs == numEpochs
      ensures this.transfer == transfer && this.fsTransfer == fsTransfer && this.fsNumEpochs == fsNumEpochs
      ensures epochStart == 1
    {
      this.weights := weights;
      this.inferenceOnly := inferenceOnly;
      this.numEpochs := numEpochs;
      this.transfer := transfer;
      this.fsTransfer := fsTransfer;
      this.fsNumEpochs := fsNumEpochs;
      epochStart := 1;
    }

    /**
     * Loads `loaded`, read from `path`. In transfer or few-shot mode: delete the
     * dataset tables, update and strictly load, then set the mode flags. Otherwise:
     * a non-strict load, then the epoch to resume from is parsed out of the path.
     * A strict load copies what it can before it reports unexpected keys, and
     * the non-strict load has already happened when the path fails to parse.
     */
    method LoadStateDict(path: string, loaded: map<Key, W>) returns (r: Result<(), LoadError>)
      modifies this
      ensures transfer || fsTransfer ==>
        && (r.Ok? <==> TransferAccepts(old(weights), loaded))
        && weights == (if forall k :: k in Dropped ==> k in loaded then PartialLoad(old(weights), Kept(loaded)) else old(weights))
        && inferenceOnly == (if r.Ok? && transfer then true else old(inferenceOnly))
        && numEpochs == (if r.Ok? && fsTransfer then fsNumEpochs else old(numEpochs))
        && epochStart == old(epochStart)
      ensures !(transfer || fsTransfer) ==>
        && weights == PartialLoad(old(weights), loaded)
        && (r.Ok? <==> ResumeEpochStart(path).Ok?)
        && epochStart == (if r.Ok? then ResumeEpochStart(path).value else old(epochStart))
        && inferenceOnly == old(inferenceOnly) && numEpochs == old(numEpochs)
    {
      if transfer || fsTransfer {
        var kept := DropDatasetTables(loaded);
        if kept.None? {
          return Err(LoadError.ValueError);
        }
        var rest := kept.value;
        var before := weights;
        var merged := before + rest;
        LoadUpdatedDict(before, rest);
        weights := PartialLoad(before, merged);
        if merged.Keys != before.Keys {
          return Err(LoadError.ValueError);
        }
        if transfer {
          inferenceOnly := true;
        }
        if fsTransfer {
          numEpochs := fsNumEpochs;
        }
        r := Ok(());
      } else {
        weights := PartialLoad(weights, loaded);
        var start := ResumeEpochStart(path);
        if start.Err? {
          return Err(LoadError.ValueError);
        }
        epochStart := start.value;
        r := Ok(());
      }
    }

    /**
     * The epoch loop: epochs epochStart..numEpochs in order, none when the run is
     * inference-only; after every twentieth epoch the run is evaluated and a
     * checkpoint named for that epoch is written. Unless the run is
     * inference-only, a last checkpoint named for `num_epochs` follows the loop,
     * whether or not any epoch trained.
     */
    method EpochSchedule(model: string, lr: string, layers: int, heads: int, hidden: int, maxlen: int)
      returns (trained: seq<int>, saved: seq<string>)
      ensures trained == (if inferenceOnly then [] else Range(epochStart, numEpochs + 1))
      ensures saved == Names(model, lr, layers, heads, hidden, maxlen, Evaluated(trained))
        + (if inferenceOnly then [] else [CheckpointName(model, numEpochs, lr, layers, heads, hidden, maxlen)])
    {
      trained, saved := [], [];
      var epoch := epochStart;
      while epoch < numEpochs + 1
        invariant epochStart <= epoch
        invariant epoch <= numEpochs + 1 || epoch == epochStart
        invariant trained == Range(epochStart, epoch)
        invariant inferenceOnly ==> epoch == epochStart
        invariant saved == Names(model, lr, layers, heads, hidden, maxlen, Evaluated(trained))
        decreases numEpochs + 1 - epoch
      {
        if inferenceOnly {
          break;
        }
        RangeSnoc(epochStart, epoch);
        EvaluatedSnoc(trained, epoch);
        trained := trained + [epoch];
        if epoch % 20 == 0 {
          saved := saved + [CheckpointName(model, epoch, lr, layers, heads, hidden, maxlen)];
        }
        epoch := epoch + 1;
      }
      if !inferenceOnly {
        saved := saved + [CheckpointName(model, numEpochs, lr, layers, heads, hidden, maxlen)];
      }
    }
  }

  /** `range(lo, hi)`. */
  function Range(lo: int, hi: int): (r: seq<int>)
    ensures |r| == if lo < hi then hi - lo else 0
    ensures forall k :: 0 <= k < |r| ==> r[k] == lo + k
  {
    if lo < hi then seq(hi - lo, k => lo + k) else []
  }

  lemma RangeSnoc(lo: int, hi: int)
    requires lo <= hi
    ensures Range(lo, hi + 1) == Range(lo, hi) + [hi]
  {
  }

  /** The epochs after which the model is evaluated and saved: `epoch % 20 == 0`. */
  function Evaluated(epochs: seq<int>): (r: seq<int>)
    ensures forall e :: e in r <==> e in epochs && e % 20 == 0
  {
    if epochs == [] then []
    else (if epochs[0] % 20 == 0 then [epochs[0]] else []) + Evaluated(epochs[1..])
  }

  lemma {:induction false} EvaluatedSnoc(epochs: seq<int>, e: int)
    ensures Evaluated(epochs + [e]) == Evaluated(epochs) + (if e % 20 == 0 then [e] else [])
  {
    if epochs != [] {
      assert (epochs + [e])[1..] == epochs[1..] + [e];
      EvaluatedSnoc(epochs[1..], e);
    } else {
      assert [e][1..] == [];
    }
  }

  function Names(model: string, lr: string, layers: int, heads: int, hidden: int, maxlen: int, epochs: seq<int>): (r: seq<string>)
    ensures |r| == |epochs|
  {
    seq(|epochs|, k requires 0 <= k < |epochs| => CheckpointName(model, epochs[k], lr, layers, heads, hidden, maxlen))
  }

  /**
   * Every checkpoint the loop writes, once resumed, restarts the loop at the
   * epoch after the one it was written for.
   */
  lemma SavedCheckpointsResumeAfter(dir: string, model: string, lr: string, layers: int, heads: int, hidden: int, maxlen: int,
                                    trained: seq<int>, e: int)
    requires !Occurs("epoch=", dir + model)
    requires e in Evaluated(trained)
    ensures e in trained && e % 20 == 0
    ensures CheckpointName(model, e, lr, layers, heads, hidden, maxlen) in Names(model, lr, layers, heads, hidden, maxlen, Evaluated(trained))
    ensures ResumeEpochStart(dir + CheckpointName(model, e, lr, layers, heads, hidden, maxlen)) == Ok(e + 1)
  {
    var saved := Evaluated(trained);
    var k :| 0 <= k < |saved| && saved[k] == e;
    assert Names(model, lr, layers, heads, hidden, maxlen, saved)[k] == CheckpointName(model, e, lr, layers, heads, hidden, maxlen);
    ResumeRoundTrip(dir, model, e, lr, layers, heads, hidden, maxlen);
  }

  /**
   * The checkpoint written after the loop resumes past the last epoch, so a
   * run resumed from it with the same `num_epochs` trains no epoch.
   */
  lemma FinalCheckpointEndsTraining(dir: string, model: string, lr: string, layers: int, heads: int, hidden: int, maxlen: int,
                                    numEpochs: int)
    requires !Occurs("epoch=", dir + model)
    ensures ResumeEpochStart(dir + CheckpointName(model, numEpochs, lr, layers, heads, hidden, maxlen)) == Ok(numEpochs + 1)
    ensures Range(ResumeEpochStart(dir + CheckpointName(model, numEpochs, lr, layers, heads, hidden, maxlen)).value, numEpochs + 1) == []
  {
    ResumeRoundTrip(dir, model, numEpochs, lr, layers, heads, hidden, maxlen);
  }
}
