# Popularity-aware sequential recommender: the exact bookkeeping, verified

The repository trains self-attention recommenders over users' item
histories. NewRec is its own model, NewB4Rec a BERT-style variant and
CL4SRec a contrastive baseline. Their items are embedded through month and week
popularity tables. The numeric parts are layer norms, attention, feed-forward
layers and losses. Around them sits a layer of exact integer and boolean
bookkeeping, and that layer is what this project models and proves things
about:

- **Time indices** (`TimeIndex`). This covers the leakage lag on the month and
  week indices and which time columns the history and the targets read.
- **Masks** (`Masks`). There is a padding mask taken from item id 0, which is
  doubled when time embeddings are interleaved. There is also the
  lower-triangular causal mask. SASRec (model.py:593-595) and CL4SRec
  (model.py:791-793) build their causal masks the same way as NewRec.
- **Encoder layout** (`EncoderLayout`). This is the row that log2feats pushes
  through the stack. Item and time embeddings are interleaved. Padded
  positions are zeroed before the first block and after every block. Every
  other position is kept at the end. Hidden vectors are an opaque type `V`.
  The blocks and the final layer norm are opaque functions that preserve
  length.
- **Encoder configuration** (`EncoderConfig`). This covers the divisibility
  assertions, the head count, the stack width and the gate, for NewRec and
  NewB4Rec.
- **CL4SRec augmentations** (`Augment`). These are crop, mask and reorder of
  left-padded item rows, plus the per-row choice of two different
  augmentations. Each one is an in-place edit of an array, modelled as a
  method proved against a function. Every random draw is a parameter, required
  to lie in the range the source draws it from.
- **InfoNCE sample layout** (`Contrastive`). This is the boolean 2B×2B mask,
  built in place as an `array2`. It also covers how `sim[mask].reshape(N, -1)`
  and the two diagonals split a similarity matrix into positives and
  negatives.
- **NewB4Rec candidates** (`Candidates`). Each position gets `compare_size`
  sampled ids followed by its own item. The training step scores only
  labelled positions, always against the last column, and the loss ignores
  class 0.
- **Driver helpers in main.py**:
  - `Cli`: `str2bool`;
  - `Checkpoint`: the checkpoint file name and the epoch parsed back out of a
    resume path, with Python's `str.find`, slicing, `str()` and `int()`
    written out;
  - `Resume`: the transfer merge and the non-strict resume load, as a `Run`
    class whose fields the load updates, and the epoch loop with its
    checkpoint schedule, including the checkpoint written after the loop;
  - `Objective`: which positions enter the two BCE terms of a newrec step,
    and how the ranking and regularisation terms add up.
- **Shared helpers**: `Indexing` (row-major flattening and `np.where`-style
  selection) and `Wrappers` (`Option`, `Result`).

Exceptions become the `Err` case of a `Result`, named after the Python
exception. This covers `AssertionError`, `ZeroDivisionError`, `IndexError`,
`ValueError`, `RuntimeError` from a reshape or a concatenation, and `AttributeError`. The last
comes from `backward()` on a plain number or from a layer that was never
created.

Three intended behaviours of the system are not what the code does, and the
model follows the code:

- Intended: both time indices are the raw index minus the lag, strictly
  earlier than the true bucket. In the code the month index is
  `t1 - 1 - lag // 4` and the week index is `t2 - lag`, both clamped at 0. So
  with lag 0 the week index is not earlier at all (`TimeIndex.LagWeek`).
- Intended: a batch with no real target adds nothing to the ranking loss,
  with the division guarded. The code takes a plain mean over an empty
  selection, which is NaN (`Objective.AllPaddingIsNaN`).
- Intended: a checkpoint that does not match the model is a hard failure
  outside transfer mode. The resume path loads with `strict=False`: missing
  and unexpected keys are ignored, and matching entries are copied (`Resume.Run.LoadStateDict`).

Some consequences of the code, stated as lemmas:

- With both the item-group branch and the attention trajectory on, there are
  three heads. `embed_layer2` is then never created, so log2feats cannot run
  and raises AttributeError (`EncoderConfig.FeatureWidthByBranches`).
- With time embeddings interleaved (`time_embed` and `time_embed_concat`) and
  exactly one side branch on, the row has 2T positions but the side feature
  has T. The concatenation at model.py:160 or :173 then raises RuntimeError
  (`EncoderConfig.FeatureWidthByBranches`).
- In concat mode the causal mask runs over 2T slots, so a kept item slot
  cannot attend to its own time slot (`EncoderLayout.ItemSlotBlindToOwnTime`).
- The B4 target column holds the sequence item `seqs[i][j]`. Whether that
  equals the label depends on the sampler, which is not part of this model.

## Model

| member | source | states |
|---|---|---|
| TimeIndex.LagMonth | model.py:232 | The lagged month index is never negative. Under a nonnegative lag it is strictly earlier than a positive raw index, and 0 when the raw index is not positive. |
| TimeIndex.LagWeek | model.py:232 | The lagged week index is never negative and never later than the raw index. With a lag of at least 1 it is strictly earlier. |
| TimeIndex.LagAntitone | model.py:232 | A larger lag never moves the month or the week index later. |
| TimeIndex.LagRowsNeverLookAhead | model.py:297 | `raw` clamps whole rows the same way: under nonnegative lags each month entry is strictly earlier than a positive raw entry, each week entry is no later than its raw entry, and a larger lag moves no entry later. |
| TimeIndex.ForwardTimeColumnsAt | model.py:232-248 | From T+1 time columns, the history reads lagged columns 0..T-1. With prev_time the targets read the same columns. Without it they read columns 1..T, and the lagged month row supplies both target indices. |
| TimeIndex.TargetUsesNextMonth | model.py:245-248 | Without prev_time, the target at k shares its month index with history position k+1. |
| TimeIndex.HistoryNeverLooksAhead | model.py:232-234 | Under a nonnegative lag, each history month index is earlier than its raw index, and each week index is no later than its raw index. |
| Masks.RepeatTwice | model.py:177 | `repeat_interleave(·, 2)` doubles the length, and slots 2k and 2k+1 both hold entry k. |
| Masks.TimelineMaskAt | model.py:176-179 | Slot p of the timeline mask is set exactly when its item (p/2 in concat mode, p otherwise) is padding. |
| Masks.ZeroPaddedIdempotent | model.py:196 | Re-zeroing after a block does not change a row that is already zeroed. |
| Masks.CausalMaskBlocksFuture | model.py:181-184 | Query i is blocked from key j exactly when j > i. |
| Masks.CausalRowOpenCount | model.py:182-184 | Row i of the causal mask leaves exactly i+1 keys open. |
| EncoderConfig.Construct | model.py:11-101 | Construction succeeds exactly when both divisibility assertions hold, and otherwise raises AssertionError. On success the head count is 1, plus 1 for the item-group branch, plus 1 for the attention trajectory. The width is hidden_units × heads. A gate exists exactly when there are two heads, that is, when exactly one side branch is on. |
| EncoderConfig.AcceptedWidthsSplitIntoBuckets | model.py:11-12 | After construction, every nonzero bucket width divides its feature width. |
| EncoderConfig.FeatureWidthByBranches | model.py:98-201 | With both side branches on there are three heads, so `embed_layer2` is never created, and log2feats raises AttributeError at the side-branch projection, before any concatenation. With exactly one side branch on and time embeddings interleaved, the T-position side feature cannot be concatenated onto the 2T-position row: RuntimeError. In every other configuration the hidden state's channel width is one head: the gate halves a two-head state. The width says nothing about the downsampling at model.py:203-204, which can still raise IndexError (`EncoderLayout.Log2Feats`, see "## Findings"). |
| EncoderConfig.ConstructB4 | model.py:384-385 | NewB4Rec accepts exactly nonzero bucket widths that divide their features. The month check runs first. A zero width reached by the checks raises ZeroDivisionError: the month width, or the week width once the month check passed. A nonzero width that does not divide raises AssertionError. |
| EncoderConfig.B4StricterThanNewRec | model.py:384-385 | Every accepted NewB4Rec configuration is an accepted NewRec one, and a zero month bucket width is refused. |
| EncoderLayout.Interleave | model.py:153 | Stacking and viewing gives length 2T, with item embedding k at 2k and time embedding k at 2k+1. |
| EncoderLayout.EvenPositionsUndoInterleave | model.py:204 | Downsampling an interleaved row returns exactly its item embeddings. |
| EncoderLayout.RunBlocksKeepPaddingZero | model.py:187-196 | If padded positions are zero on entry, they stay zero after any number of blocks. |
| EncoderLayout.Log2Feats | model.py:176-205 | The block loop leaves the state equal to n blocks over the zeroed (possibly interleaved) embeddings, with padding zero. The result is the final layer downsampled as line 203 is written. It equals the guarded downsample whenever the row was doubled or concat is off, and it is IndexError with concat on, time embeddings off and maxlen ≥ 2. |
| EncoderLayout.FeatsHaveOneVectorPerItem | model.py:203-204 | The corrected encoder returns exactly maxlen vectors. In concat mode, vector k is item slot 2k. |
| EncoderLayout.DownsampleAgreesWhenGuarded | model.py:203 | The line as written and the guarded one agree unless concat is set without time embeddings. |
| EncoderLayout.AsWrittenConcatWithoutTimeFails | model.py:203-204 | With time_embed off, concat on and maxlen 2, the row is not doubled, yet the line as written raises IndexError. |
| EncoderLayout.ItemSlotBlindToOwnTime | model.py:176-184 | In concat mode item slot 2k cannot attend to its own time slot 2k+1, but it does see the previous time slot. |
| Augment.ScatterInPlace | model.py:824 | The in-place fancy assignment leaves the array equal to writing the values one index at a time. numpy fixes no order for repeated indices, but every use here is order-independent: the mask writes one constant and the reorder indices are distinct. |
| Augment.Cropped | model.py:810-817 | A short history (len − num_left ≤ 1) is returned unchanged. Otherwise the row keeps its length, is zero before its last num_left slots, and those slots equal the window ending crop_begin slots before the end. |
| Augment.ItemCrop | model.py:810-817 | The array-allocating crop returns exactly `Cropped`. |
| Augment.CropKeepsHistoryWindow | model.py:815-816 | The kept window lies inside the real history and excludes its latest item. The crop of a left-padded row is left-padded with num_left items. |
| Augment.ItemMask | model.py:819-825 | The copy-and-assign mask returns exactly `Masked`. |
| Augment.MaskedAt | model.py:819-825 | The length is kept. Slot k becomes 0 exactly when some drawn index names it (T − idx), every such slot lies in the last len positions, and every other slot keeps its item. |
| Augment.ItemReorder | model.py:827-836 | The copy-and-scatter reorder returns exactly `Reordered`. |
| Augment.ReorderedPermutesWindow | model.py:827-836 | The window [T−begin−n, T−begin) lies inside the history. The row changes only there, window item j lands on the slot its shuffled index names, and the result is a permutation of the row. |
| Augment.ApplyAugmentation | model.py:845-855 | Switch 0, 1 and 2 select crop, mask and reorder. |
| Augment.AugmentedStaysWithinRow | model.py:838-856 | Every augmentation keeps the row length, introduces no item absent from the row, and leaves leading padding as padding. |
| Augment.AugmentBatch | model.py:838-856 | The two cloned batches hold, row by row, the two views that the row's two distinct switch values select. |
| Contrastive.MaskCorrelatedSamples | model.py:858-865 | The matrix is 2B×2B, and entry (i, j) is true exactly when j is neither i nor i ± B. |
| Contrastive.MaskRowExcludesSelfAndPartner | model.py:858-865 | The mask is symmetric. Row i excludes exactly column i and the other view of the same sample, and that partner relation is an involution without fixed points. |
| Contrastive.MaskRowCount | model.py:858-865 | Every row keeps exactly N − 2 = 2B − 2 entries. |
| Contrastive.NegativeSamplesPerRow | model.py:883 | For B ≥ 2 the reshape succeeds, and negative row i is similarity row i without columns i and partner(i), 2B − 2 entries. For B ≤ 1 the empty selection cannot be reshaped and torch raises. |
| Contrastive.PositiveIsMaskedPartner | model.py:875-878 | The positive of row i is its similarity with its partner, which is the one off-diagonal entry the mask drops. |
| Candidates.CandidateLayout | model.py:490-499 | Each position has compare_size + 1 candidates: the draws, all in [1, item_num], and then the position's own item. All of them share the position's time indices. |
| Candidates.ScoredRowOrigin | main.py:232 | Training row k is the candidate row of the labelled position (n / T, n % T), where n is the k-th nonzero flat label. Its target column `shape[1] − 1` holds that position's item. |
| Candidates.LabelledPositionCounted | main.py:226-232 | With compare_size ≥ 1, every labelled position counts towards the loss through its own candidate row. With compare_size 0 (`itemnum // loss_size` when itemnum < loss_size), every target is the ignored class 0 and no row counts. |
| Indexing.NonzeroIsExact | main.py:216 | `np.where(pos != 0)` lists exactly the nonzero flat positions. |
| Cli.Str2Bool | main.py:11-14 | "true" gives true and "false" gives false. Every other string raises ValueError. |
| Cli.Str2BoolRoundTrip | main.py:11-14 | A boolean written in the accepted spelling parses back to itself. |
| Checkpoint.FindFrom | main.py:153 | `str.find` returns the first match at or after the start, or −1 exactly when there is none. |
| Checkpoint.ParseIntOfIntToString | main.py:154 | `int(str(e)) == e` for every integer epoch. |
| Checkpoint.Settings | main.py:263-264 | The part of the file name after the epoch starts with '.', which is where the parser stops. |
| Checkpoint.ResumeRoundTrip | main.py:153-154 | Resuming from a checkpoint written for epoch e gives epoch_start_idx = e + 1, provided "epoch=" occurs nowhere in the directory or model name. |
| Resume.PartialLoad | main.py:152 | A load keeps exactly the model's keys. |
| Resume.DropDatasetTables | main.py:142-143 | The `del` loop fails exactly when a dataset table is missing. Otherwise it leaves the loaded mapping without the three tables. |
| Resume.UpdateThenStrictLoad | main.py:144-146 | When the transfer is accepted, update then strict load keeps the model's keys and equals copying the kept entries in. |
| Resume.TransferMergeValues | main.py:139-146 | After a transfer, the dataset tables keep the model's values and other loaded entries overwrite the model's. Model entries absent from the checkpoint keep their values. |
| Resume.LoadUpdatedDict | main.py:145-146 | Loading `model + src` copies what loading src copies. It finds no unexpected key exactly when src has none. |
| Resume.Run.constructor | main.py:136 | A run starts at epoch 1 with the given weights and flags. |
| Resume.Run.LoadStateDict | main.py:137-157 | Transfer path: success exactly when every table is present and no other key is unexpected; weights merged as above; inference_only and num_epochs set only on success. Resume path: non-strict copy; success exactly when the path parses; epoch_start set to the parsed epoch + 1. |
| Resume.Run.EpochSchedule | main.py:167-276 | Inference-only runs train and save nothing. Otherwise epochs epoch_start..num_epochs run in order. The checkpoints written are those of the trained epochs divisible by 20, then one named for num_epochs after the loop, even when no epoch trained. |
| Resume.Evaluated | main.py:250 | An epoch is evaluated and saved exactly when it was trained and is divisible by 20. |
| Resume.FinalCheckpointEndsTraining | main.py:273-276 | The checkpoint written after the loop resumes at num_epochs + 1, so a run resumed from it with the same num_epochs trains nothing. |
| Resume.SavedCheckpointsResumeAfter | main.py:263-265 | Every checkpoint the loop writes is for a trained epoch divisible by 20, and resuming from it restarts at the next epoch. |
| Objective.MeanLoss | main.py:217-218 | The mean BCE over the selected entries is NaN exactly when nothing is selected. |
| Objective.RegLoss | model.py:350-378 | regloss is the plain number 0 when neither regulariser is on, and otherwise a tensor holding the sum of the enabled terms. |
| Objective.ComputeStepLoss | main.py:212-221 | The `+=` accumulation gives the step's loss and printed BCE part, with AttributeError when backward meets a plain number. |
| Objective.BothTermsUseTargetPositions | main.py:216-218 | The positive and the negative term both take entry k from the same flat position, a nonzero target, and have one entry per nonzero target. |
| Objective.PaddedLogitsIgnored | main.py:216-218 | Changing logits only at padded positions does not change the ranking loss. |
| Objective.OnlyRegIsWeightedRegulariser | main.py:213-220 | With only_reg and a regulariser on, the loss is reg_coef × regloss and the printed BCE part is 0. |
| Objective.NoRegulariserIsRankingLoss | main.py:213-221 | With neither regulariser on, the loss is the ranking part. Under only_reg there is nothing to differentiate, and backward raises. |
| Objective.AllPaddingIsNaN | main.py:216-218 | A batch without any nonzero target yields a NaN loss. |

## Left out

- Layer norm, attention, feed-forward layers, GELU, the gate, and the
  position and time encodings: these are floating-point tensor numerics. They
  are opaque functions that preserve length (`block`, `last`) or opaque
  embeddings (`emb`, `timeres`).
- The loss values (BCE, triplet, cosine, InfoNCE cross-entropy, NewB4Rec's log-softmax and cross-entropy): these are floating-point. Per-element losses and regulariser terms are opaque reals; only selection and composition are modelled.
- The `model_utils` classes (popularity encoding, causal multi-head attention, user activity encoding): their code is not part of this model.
- Trajectory percentile binning and the `np.linspace` window of `user2feats`: they rely on float arithmetic and raw numpy fancy indexing.
- File and checkpoint I/O (`np.loadtxt`, `torch.load`, `torch.save`, the args and log files): a loaded state dict and the path it came from are parameters.
- The sampler and `evaluate`: the sampler uses background worker processes and `evaluate` is not part of this model. So labels and sequences are parameters, and nothing says the appended NewB4Rec item equals its label.
- The NewRec prediction path and NewB4Rec's scoring of given candidates (model.py:477-487): these belong to evaluation, which is not part of this model. One index fact there is not captured: every given candidate is looked up at the batch's last time indices, and only the last position's score is returned.
- Random number generation: every draw (`crop_begin`, mask indices, `reorder_begin`, the shuffle, the two switch values, the NewB4Rec candidate ids) is a parameter, required to lie in its source range.
- Augment.Cropped: `floor(len*0.6)` and `floor(len*0.3)` are computed in floating point in the source. They are parameters here, required only to lie in [0, len] and, for the 0.6 amounts, to be at least 1 once len ≥ 2.
- Checkpoint.ParseInt: Python's `int()` also accepts surrounding whitespace, digit underscores and any Unicode decimal digits (fullwidth `１２`, say). On a checkpoint path holding such an epoch, `Resume.Run.LoadStateDict` therefore reports an error where main.py:153-154 would resume. The model parses only an optional sign followed by decimal digits, which is all `str()` of an int produces.
- Resume.Run.LoadStateDict: tensor shape mismatches between a checkpoint entry and the model entry are not modelled. Weights are opaque values keyed by name.
- The distance-matrix and `argpartition` neighbour selection for the regularisers: these are foreign library calls.
- The optimiser step and backward pass: they are numeric. Only the AttributeError raised by `backward()` on a plain number is modelled.
- The argument parser setup, seeding and the commented-out CL4SRec/DuoRec code. The parser at main.py:16-62 defines none of the options NewRec reads (`no_emb`, `time_embed`, `time_embed_concat`, `itemgrp`, `traj_form`, `prev_time`, `lag`, ...), so `NewRec(usernum, itemnum, args)` at main.py:117 would raise AttributeError at model.py:18 as written (not executed). The model takes these options as parameters.
- `train_test.py`: it repeats the main.py driver, and its discrete logic (masked positions, the last-column target) is covered through main.py.
- The BPRMF, SASRec and BERT4Rec baselines: only their shared causal-mask construction is modelled.
- Batches: the encoder index, mask and time logic is modelled on one row. The source applies it to every row of a batch alike.

## Findings

| source | as written | input that shows it | evidently intended | confidence | as-written member | corrected member |
|---|---|---|---|---|---|---|
| model.py:203-204 | Downsamples to every other position whenever `time_embed_concat` is set. | `time_embed=False`, `time_embed_concat=True`, maxlen 2: the row was never doubled (lines 152 and 176 also require `time_embed`), so index 2 is out of range and IndexError is raised. | Downsample only when the row was doubled, i.e. when `time_embed and time_embed_concat`. | not executed | EncoderLayout.AsWrittenConcatWithoutTimeFails | EncoderLayout.FeatsHaveOneVectorPerItem |
