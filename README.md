# Voiceprint-Recognition training core in Dafny

This project models the training driver `train.py` and the loss functions of
`triplet_loss.py` of the Voiceprint-Recognition speaker-embedding trainer, and
proves properties of the model.

**Start-up.** The driver starts from the feature catalogue: a column of file
names and a column of speaker ids.
- `np.sort(unique(...))` gives the sorted distinct speaker ids.
- `spk_index` is the label map, built over all sorted speaker ids before any filtering.
- `create_dict` builds the per-speaker utterance lists and drops every speaker with fewer than two files.
- Resuming parses the step number back out of the latest checkpoint's name (`int(name.split('_')[-2])`). The loop starts at that step, with the checkpoint still in the regular folder; the loop's invariant keeps that checkpoint the latest one, with no save step between its step and the current one.

**The training loop.** `while True` is modelled as a state machine. Each pass:
- maps the batch's speaker ids to labels;
- appends the loss lines;
- evaluates on the training data every ten steps and on the test data every `TEST_PER_EPOCHS` steps;
- on every `SAVE_PER_EPOCHS`-th step, empties the regular checkpoint folder and saves the regular checkpoint there;
- on such a save step, when the current `eer` is below `lasteer`, runs the best-checkpoint retention pass and writes the new best checkpoint(s). The current `eer` is the latest test EER, or its start value 1 when no test step has run yet.

The loop is the pure function `Training.Next`. The class `Training.Trainer` holds the loop's variables as fields, and its `Step` method is proved to move them to `Next` of their old values.

**The losses.** They are modelled over exact reals:
- the Deep Speaker triplet loss;
- the CosFace (`coco_loss`) and additive angular margin (`AAM_loss`) heads;
- the center loss. Its non-trainable table of class centres is a class over an array, updated in place by `scatter_sub`.

**Modules**
- `Wrappers`: Option and Result.
- `Collections`: duplicate-free sequences.
- `Text`: the Python string operations the driver relies on. These are `str.split`, `int()`, `'{}'.format` of an integer, the fixed-point `{:.5f}` and string comparison.
- `Speakers`, `Checkpoints`, `Training`: the driver.
- `Vectors`, `TripletLoss`, `MarginLosses`, `CenterLoss`: the losses.

**What the code does, and the model with it:**
- `files[:-4]` removes all but four `.h5` files, and the new best checkpoint is written after that, so the best folder holds at most five `.h5` files after a save, and exactly five once it held four or more before it (`Checkpoints.PoolReachesFive`).
- The retention pass orders files by the fractional digits of the metric in their names, not by the metric. `Training.Next` and `Training.Trainer.Save` run this pass as written. The pass ranked by the metric is modelled beside it, in `Checkpoints` (`AfterBestRecord`, `RecordPoolAfterSave`). The two passes leave the same files while every metric is below 1.0 (`Checkpoints.KeyPassAgreesBelowOne`). See Findings.
- The label map is built over all sorted speakers, not over the speakers that survive the filtering. `Speakers.BuildIndex` builds it as written. The map over the surviving speakers is modelled beside it (`Speakers.KeptSpkIndex`). See Findings.
- `batch_cosine_similarity` is a plain row dot product with no normalisation.
- The loss written to the training-loss log is the constant 0.

**Units.**
- Metric values (EER) are non-negative fixed-point numbers in units of 10^-5, which is what `{:.5f}` writes. So `lasteer = 10` is 1000000 and `eer = 1` is 100000.
- Speaker ids are integers.

## Model

| member | source | states |
|---|---|---|
| Speakers.FilesOf | train.py:32-33 | a speaker's list holds one file per catalogue row labelled with it, each taken from such a row |
| Speakers.KeptSpeakers | train.py:35-38 | the speakers of the listing named by at least two rows, in listing order (its members are stated by `KeptSpeakersMembers`) |
| Speakers.KeptSpeakersMembers | train.py:35-37 | a speaker survives exactly when it is listed and named by at least two rows |
| Speakers.KeptSpeakersDistinct | train.py:38 | the surviving key list of a duplicate-free speaker list has no duplicates |
| Speakers.NewSpeakerLists | train.py:29-30 | one empty list per listed speaker, keys in listing order |
| Speakers.RemoveKey | train.py:37 | `pop` of a key removes that key and keeps every other |
| Speakers.FileRows | train.py:32-33 | each row's file is appended to its speaker's list; the first row whose speaker is unlisted raises KeyError, and the first row past the file column raises IndexError |
| Speakers.DropSmallSpeakers | train.py:35-38 | speakers with fewer than two files are popped; the remaining keys keep their order |
| Speakers.CreateDict | train.py:27-39 | the result is an error exactly when some row is bad, and the error is the one for the first bad row; otherwise the keys are the surviving speakers in order, each list has at least two files and equals that speaker's files, and a listed speaker is absent exactly when it has fewer than two rows |
| Speakers.InsertUnique | train.py:63 | inserting into an ascending duplicate-free list keeps it so, and adds exactly the new id |
| Speakers.SortedUnique | train.py:63 | strictly ascending, with exactly the ids of the catalogue |
| Speakers.SpkIndex | train.py:67 | the label map has a key exactly for each listed id, and every label is below the list's length |
| Speakers.SpkIndexPosition | train.py:67 | on duplicate-free ids, the i-th id gets label i |
| Speakers.SpkIndexBijective | train.py:67 | on duplicate-free ids, the label map is a bijection onto 0..n-1 |
| Speakers.LabelBatch | train.py:186 | it succeeds exactly when every batch id has a label, and then gives, in order, the label of each id; otherwise it is the KeyError of the first id without a label |
| Speakers.LabelBatchDecodes | train.py:186 | every batch label is in range, and indexing the sorted id list with it gives back the batch's speaker id |
| Speakers.BuildIndex | train.py:53-70 | an empty catalogue is fatal; otherwise the sorted distinct ids, the label map over all of them (a key for every catalogue id, each labelled by its sorted position), and the surviving speakers with their file lists, whose keys all have labels |
| Speakers.LabelCanReachClassCount | train.py:63-70 | as written: ids [1, 2, 2] keep one speaker, whose label is 1, equal to the class count |
| Speakers.KeptSpkIndex | train.py:67-70 | corrected label map: keys are exactly the speakers with two or more rows, labels are injective and below the class count |
| Speakers.KeptLabelsBelowClassCount | train.py:186 | with the corrected map, every batch of surviving speakers gets labels, all below the class count |
| Checkpoints.ResumeStep | train.py:137 | a name without `_` raises IndexError; otherwise the result is Ok exactly when the second-to-last `_` piece parses as an int, with its value, and ValueError when it does not |
| Checkpoints.ResumeRoundTrip | train.py:220 | a regular checkpoint written at a step parses back to that step, if the loss text has no `_` |
| Checkpoints.FixedPoint5NoUnderscore | train.py:220 | the `{:.5f}` loss text never holds `_` |
| Checkpoints.ModelCheckpointName | train.py:220 | the regular checkpoint name `{folder}/model_{step}_{loss:.5f}.h5`; `ResumeRoundTrip` proves its step parses back |
| Checkpoints.GruCheckpointName | train.py:222 | the GRU checkpoint name `{folder}/grumodel_{step}_{loss:.5f}.h5` |
| Checkpoints.BestName | train.py:231 | the best checkpoint name `prefix{step}_{eer:.5f}.h5`; `BestNameKey` proves its key is the five fractional digits |
| Checkpoints.Key | train.py:226 | the retention key never holds a `.` |
| Checkpoints.H5HasDot | train.py:224 | every `.h5` name holds a `.`, so the key lookup cannot fail on them |
| Checkpoints.BestNameKey | train.py:231 | a best checkpoint's name ends in `.h5`, and its key is exactly the five fractional digits of its metric |
| Checkpoints.KeyOrderBelowOne | train.py:226 | for metrics below 1.0, the key order is the metric order, in both directions |
| Checkpoints.KeyRanksByFraction | train.py:226 | as written: a larger fractional part gives the strictly larger key, so the descending ranking puts it first, whatever the integer part |
| Checkpoints.KeyRanksEerOneLast | train.py:223-231 | as written: 1.00000 has the strictly smaller key, so the descending ranking puts it after 0.50000 and the pass keeps it |
| Checkpoints.InsertDesc | train.py:224-226 | insertion into a descending list keeps it descending, and adds exactly one element |
| Checkpoints.SortDesc | train.py:224-226 | `sorted(..., reverse=True)` is descending and a permutation of its input |
| Checkpoints.PrefixAboveSuffix | train.py:228 | in a descending ranking, every element of a prefix is at or above every element after it |
| Checkpoints.DropLastFour | train.py:228 | `files[:-4]` is empty for at most four files and otherwise every file but the last four, in order |
| Checkpoints.LastFour | train.py:228 | the files `files[:-4]` skips are the last min(n, 4), and the two parts concatenate back to the list |
| Checkpoints.KeyLe | train.py:226 | comparing names by key is a total preorder |
| Checkpoints.H5Files | train.py:224-225 | the filter keeps exactly the `.h5` names, without adding duplicates |
| Checkpoints.Without | train.py:228-230 | after the removals the folder holds exactly the files not removed, without adding duplicates; removing nothing leaves the listing as it was |
| Checkpoints.WithoutOneMore | train.py:228-230 | removing one file after the others is removing them all |
| Checkpoints.PruneToSuffix | train.py:228-230 | removing the leading part of a duplicate-free ranking of a folder leaves exactly the trailing part, with as many files |
| Checkpoints.H5FilesWithout | train.py:224-230 | removing files and then filtering for `.h5` is filtering and then removing |
| Checkpoints.AddFile | train.py:231 | after writing, the folder holds its old files plus the new one, without adding duplicates |
| Checkpoints.Ranked | train.py:224-226 | the ranked `.h5` files are descending by key and a permutation of the folder's `.h5` files |
| Checkpoints.RankedSplit | train.py:224-228 | the ranking is the removed prefix followed by the kept last four, and has exactly the folder's `.h5` files |
| Checkpoints.Victims | train.py:224-230 | the files a pass removes, `files[:-4]` of the key ranking; `RankedSplit`, `PruneKeepsFour` and `RemovedKeysAboveKept` state what they are |
| Checkpoints.Survivors | train.py:224-228 | the files a pass keeps, the last four of the key ranking |
| Checkpoints.AfterBestSave | train.py:224-231 | one retention pass as written, then the new best file; `PoolAtMostFive`, `PoolReachesFive` and `AddFileH5Count` state its size |
| Checkpoints.PruneKeepsFour | train.py:224-230 | a pass leaves min(n, 4) `.h5` files, exactly the last four of the ranking, and touches nothing else |
| Checkpoints.AddFileH5Count | train.py:231 | writing a file adds one `.h5` file exactly when its name is a new `.h5` name |
| Checkpoints.RemovedKeysAboveKept | train.py:224-230 | as written: every removed file's key is at or above every kept file's key |
| Checkpoints.PoolAtMostFive | train.py:224-231 | after a best save the folder holds at most five `.h5` files |
| Checkpoints.PoolReachesFive | train.py:224-231 | a folder with four or more `.h5` files, plus a best name not among those the pass keeps, holds exactly five after the save |
| Checkpoints.EerLe | train.py:226 | ordering checkpoints by metric is a total preorder |
| Checkpoints.RankedRecords | train.py:224-226 | ranking by metric is descending and a permutation of the pool |
| Checkpoints.RecordRetentionByMetric | train.py:224-230 | corrected: no removed checkpoint has a better metric than a kept one |
| Checkpoints.RecordRetentionKeepsFour | train.py:228 | corrected: a pass keeps min(n, 4) checkpoints, and together with the removed ones they are the pool |
| Checkpoints.RecordSplit | train.py:224-228 | corrected: the ranking is the removed records followed by the kept ones, with at most four kept |
| Checkpoints.RecordPruned | train.py:228-230 | corrected: after the removals the pool holds exactly the kept records, at most four |
| Checkpoints.RecordPoolAfterSave | train.py:224-231 | corrected: after a best save the pool is duplicate-free with at most five records, the new one among them; every other record was there before and is no worse than any removed one |
| Checkpoints.BestNameKeyed | train.py:231 | a best checkpoint saved with a metric below 1.0 is a `.h5` name keyed by that metric's five digits |
| Checkpoints.SortDescMap | train.py:224-226 | sorting the images of a list under an order they carry gives the images of the sorted list, element for element |
| Checkpoints.KeyPassAgreesBelowOne | train.py:224-231 | on best checkpoints saved below 1.0, the pass as written removes exactly the files of the checkpoints the pass ranked by metric removes, and the folders after the save are the same |
| Training.ResumeFromSaved | train.py:133-137 | resuming from a regular checkpoint written at a step starts at that step |
| Training.StartStep | train.py:119-137 | `grad_steps` starts at 0 without a checkpoint, otherwise at the step parsed from its name, which can fail; `ResumeFromSaved` proves a saved checkpoint resumes at its step |
| Training.BestPoolAfter | train.py:223-241 | one key-ranked pass and one new best file, twice when the networks are combined; `BestPoolAfterBounded` states what it leaves |
| Training.BestPoolAfterBounded | train.py:223-241 | an improving save (one key-ranked pass and one new file per network) keeps the folder duplicate-free with at most five `.h5` files, the last best among them; every other file was there before or was written by this save, and no non-`.h5` file is removed |
| Training.InitialStateOk | train.py:119-182 | the start state, fresh (step 0) or resumed from a checkpoint still in its folder, satisfies the loop's invariant and resumes again at its own step; `lasteer` is ten times `eer` |
| Training.Next | train.py:183-243 | the reference definition of one pass of the loop body; `NextStateOk`, `NextAdvances`, `NextSchedule` and `NextBestSave` state its properties and `Trainer.Step` is proved to follow it |
| Training.NextStateOk | train.py:183-243 | one pass keeps the invariant: `lasteer` never above 10, folders free of duplicates, and the regular checkpoint is the latest one: it resumes at a step no later than the current one with no save step in between |
| Training.NextAdvances | train.py:193-243 | each pass adds one to the step counter and appends the line `(step, 0)` to the loss log, the loss being the constant 0; `lasteer` never increases |
| Training.NextSchedule | train.py:203-220 | off save steps a training-evaluation line is added exactly on multiples of ten; a save step empties that log with the regular checkpoint folder; test evaluation exactly on multiples of TEST_PER_EPOCHS (the only time `eer` changes); the regular checkpoint changes only on save steps, where it resumes at the current step |
| Training.NextBestSave | train.py:223-241 | `lasteer` drops exactly on a save step whose `eer` is below it, and drops to that value; the best folder changes only then, ending with at most five `.h5` files, the new best among them |
| Training.RunInvariant | train.py:183-243 | over any number of passes the invariant holds, the counter advances by the number of passes, and `lasteer` never increases |
| Training.Trainer.constructor | train.py:119-182 | the loop's variables start at the step `StartStep` parses from the resumed checkpoint (0 without one), with that checkpoint and the old train_acc_eer.txt lines in the regular folder; the state satisfies the invariant |
| Training.Trainer.SaveBest | train.py:224-231 | one retention pass as written (every `.h5` file but the last four of the key ranking is removed), then the new checkpoint is written: the folder ends as `Checkpoints.AfterBestSave` defines |
| Training.Trainer.RemoveAll | train.py:228-230 | removing the files one by one leaves the folder without all of them |
| Training.Trainer.LogLosses | train.py:195-202 | the loss line (loss 0) is appended, plus the GRU loss line when the networks are combined |
| Training.Trainer.Evaluate | train.py:203-215 | each evaluation log gains its record exactly on its schedule; `eer` is replaced only on test steps |
| Training.Trainer.Save | train.py:218-241 | on a save step: the regular checkpoint folder is emptied (train_acc_eer.txt with it) and holds the new checkpoint, and the GRU one is added; if `eer` < `lasteer`, `lasteer` takes `eer` and the best folder goes through one key-ranked pass and one new file per network |
| Training.Trainer.Step | train.py:183-243 | a batch id without a label raises KeyError and changes nothing; otherwise the loop's variables move to `Next` and the invariant is kept |
| Vectors.DotSymmetric | triplet_loss.py:22 | the row dot product is symmetric |
| Vectors.DotScale | triplet_loss.py:22 | scaling a row scales its dot product by the same factor |
| Vectors.MeanNonNegative | triplet_loss.py:219 | the mean of non-negative terms is non-negative, and zero exactly when every term is |
| Vectors.MeanAtMost | triplet_loss.py:219 | a mean is at most any bound on its terms |
| Vectors.SumSquaresZero | triplet_loss.py:69 | a sum of squares is zero exactly for the zero vector |
| TripletLoss.BatchCosineSimilarity | triplet_loss.py:19-23 | one entry per row: the row dot product (`SimilaritySymmetric`, `SimilarityNotNormalised`) |
| TripletLoss.SimilaritySymmetric | triplet_loss.py:19-23 | the batch "cosine similarity" is symmetric in its two batches |
| TripletLoss.SimilarityNotNormalised | triplet_loss.py:19-23 | scaling one row scales that row's similarity and leaves the others alone: there is no normalisation |
| TripletLoss.Max0 | triplet_loss.py:216 | `tf.maximum(x, 0.0)` is non-negative, at least x, and zero exactly when x <= 0 |
| TripletLoss.DeepSpeakerLoss | triplet_loss.py:191-219 | the mean over the first N = rows/3 triplets of max(san - sap + alpha, 0), undefined for no triplets; `DeepSpeakerLossIsMean` and the lemmas after it state its properties |
| TripletLoss.DeepSpeakerLossIsMean | triplet_loss.py:204-219 | the loss is undefined (NaN) exactly when there are fewer than three rows; otherwise it is the mean of the per-triplet hinges of the blocks [0,N), [N,2N) and [2N,3N) |
| TripletLoss.DeepSpeakerLossNonNegative | triplet_loss.py:216-219 | the loss is never negative |
| TripletLoss.HingesZero | triplet_loss.py:216 | every hinge is zero exactly when every triplet meets the margin |
| TripletLoss.DeepSpeakerLossZero | triplet_loss.py:216-219 | the loss is zero exactly when every triplet's negative scores at least `alpha` below its positive |
| TripletLoss.DeepSpeakerLossAtMost | triplet_loss.py:219 | the loss is at most any bound on every triplet's hinge |
| TripletLoss.DeepSpeakerLossIgnoresRest | triplet_loss.py:191-209 | the labels and the rows past 3N do not affect the loss |
| MarginLosses.OneHot | triplet_loss.py:96 | a row of the class count's width, with entries 0 or 1 |
| MarginLosses.OneHotSum | triplet_loss.py:96 | the row marks one column when the class is in range, and none otherwise |
| MarginLosses.OneHotMarks | triplet_loss.py:156 | the marked column is the class itself |
| MarginLosses.Relu | triplet_loss.py:151 | relu is non-negative, and nonzero (true as a bool) exactly for positive input |
| MarginLosses.CosFaceLogits | triplet_loss.py:76-99 | one row per sample of the class count's width; `CosFaceColumns` states each entry |
| MarginLosses.CosFaceColumns | triplet_loss.py:93-99 | the target column is s*(cos - m), every other column is s*cos, with s = 30 and m = 0.4 |
| MarginLosses.CosFaceLabelOutOfRange | triplet_loss.py:96-99 | a label outside the class range gets no margin: its row is s*cos |
| MarginLosses.AamLogits | triplet_loss.py:121-162 | one row per sample of the class count's width; `AamColumns` states each entry |
| MarginLosses.AamColumns | triplet_loss.py:145-162 | non-target columns are s*cos; the target column is s*(cos*cos m - sin*sin m) when cos > cos(pi - m), and s*(cos - sin m * m) otherwise, with s = 64 and m = 0.5 |
| MarginLosses.AamLabelOutOfRange | triplet_loss.py:156-162 | a label outside the class range gets no margin: its row is s*cos |
| CenterLoss.ScatterSubEntry | triplet_loss.py:64 | `scatter_sub` takes from each class's row the sum of the differences of the samples labelled with that class |
| CenterLoss.ScatterSubUntouched | triplet_loss.py:64 | rows of classes absent from the batch are unchanged |
| CenterLoss.ScatterSubZeros | triplet_loss.py:64 | subtracting zero differences changes nothing |
| CenterLoss.ScatterSub | triplet_loss.py:64 | `scatter_sub` keeps the table's shape; `ScatterSubEntry`, `ScatterSubUntouched` and `ScatterSubZeros` state its entries |
| CenterLoss.CenterTable.ScatterSubInPlace | triplet_loss.py:64 | subtracting each sample's difference from its class row in place leaves the table that `scatter_sub` defines |
| CenterLoss.ColumnSumDamped | triplet_loss.py:60-61 | damping every difference by alpha/(1+k) damps their sum by the same factor |
| CenterLoss.Diffs | triplet_loss.py:50-61 | one damped difference row per sample, of the feature width; `CenterResiduals` and `CenterEntryUpdate` state its entries |
| CenterLoss.CenterResiduals | triplet_loss.py:50-53 | each sample's difference is its class centre minus its features |
| CenterLoss.CenterEntryUpdate | triplet_loss.py:50-64 | a class seen k times moves its centre by alpha/(1+k) times the summed differences between the centre and its samples, with alpha = 0.6 |
| CenterLoss.CenterFixedPoint | triplet_loss.py:50-64 | centres that already sit on their samples' features do not move |
| CenterLoss.RowsSumSquaresZero | triplet_loss.py:69 | the squares of a matrix sum to zero exactly when every entry is zero |
| CenterLoss.CenterLossValue | triplet_loss.py:66-69 | `tf.nn.l2_loss(features - centers_batch)`; `CenterLossZero` states when it is zero |
| CenterLoss.CenterLossZero | triplet_loss.py:69 | the center loss is never negative, and zero exactly when every feature equals its gathered centre |
| CenterLoss.CenterTable.constructor | triplet_loss.py:44-45 | the table has one zero row of the feature width per class |
| CenterLoss.CenterTable.Loss | triplet_loss.py:27-71 | an out-of-range label is an error and changes nothing; otherwise the table becomes the `scatter_sub` of the damped differences, classes absent from the batch keep their centres, and the result is the l2 loss against the centres gathered before the update |
| Text.Split | train.py:129 | at least one piece, none of them holding the separator, and exactly one piece when the separator is absent |
| Text.SplitJoin | train.py:129 | joining the pieces again with the separator gives back the string |
| Text.ParseInt | train.py:137 | `int()` of an optionally signed decimal string, None for anything else; `IntRoundTrip` proves it inverts `IntToString` |
| Text.IntToString | train.py:220 | the decimal text of an integer: non-empty, digits with an optional leading `-` |
| Text.FixedPoint5 | train.py:220 | `{:.5f}` of a value in units of 10^-5: integer part, `.`, five digits; `FixedPoint5NoUnderscore` and `BestNameKey` state its properties |
| Text.IntRoundTrip | train.py:220 | `int()` of the decimal text of an integer gives that integer back |
| Text.PadDigitsOrder | train.py:226 | zero-padded digit strings of one width compare as their values do |
| Text.LexLeTotal | train.py:226 | string comparison is total |
| Text.LexLeTransitive | train.py:226 | string comparison is transitive |
| Text.LexLeAntisymmetric | train.py:226 | string comparison is antisymmetric |

## Left out

- Feature extraction, the catalogue loader, the networks, `eval_model` and the batch miner (`best_batch`, `stochastic_mini_batch`) are not part of this model. The batch's speaker ids, the GRU loss and both evaluations are inputs of each step.
- File I/O and logging are modelled as sequences: the log files are sequences of records, and the checkpoint folders are sequences of names. Timing and log messages are left out.
- `create_dir_and_delete_content` (utils) is not part of this model. It is taken to empty the regular checkpoint folder, as its name says. The folder is modelled as holding the latest checkpoint only, plus `train_acc_eer.txt` (`trainLog`). That log lives in the same folder, so it is emptied on every save step.
- `get_last_checkpoint_if_any` (utils) is not part of this model. Its result is the optional name passed to `Training.StartStep` and to `Training.Trainer.constructor`, which keeps it as the regular folder's checkpoint.
- The pre-training branch (train.py:121-130) is not modelled separately. It parses the step with the same rule as `Checkpoints.ResumeStep`, but from the pre-training folder; `Training.Trainer.constructor` resumes from the regular checkpoint folder only (train.py:132-137).
- `Training.Trainer.constructor` requires a resumed name whose step parses. A name that does not parse makes `main` raise before the loop; that error is `Training.StartStep`'s, not the constructor's.
- `Checkpoints.ResumeStep`: Python's `int()` also accepts surrounding whitespace and `_` digit separators. The model accepts only an optional `+` or `-` followed by decimal digits.
- Floating point is left out; the losses are over exact reals.
  - `tf.norm`, the divisions that normalise, `sqrt`, `math.cos` and `math.sin` are left out. The AAM head takes its cosines, sines and `Trig` constants as inputs.
  - The GRU loss and the EER are the non-negative 10^-5 fixed-point values `{:.5f}` prints. Rounding to five decimals and negative values are not modelled.
- The softmax, sigmoid and plain cross-entropy losses (triplet_loss.py:106-118 and 167-187) are Keras library calls and are left out.
  - The one-hot encoding they share is modelled, as `MarginLosses.OneHot`.
  - The choice among the loss functions (train.py:153-175) is left out.
- `tf.compat.v1.get_variable` reuse across calls, and graph-mode ordering, are not modelled. The center loss is computed from the centres as gathered before the update.
- `CenterLoss.CenterTable.Loss`: on GPU, `tf.gather` out of range yields zeros instead of raising. The model follows the CPU behaviour and returns an error.
- `Speakers.CreateDict` requires a duplicate-free speaker list. Its only caller passes the output of `np.unique`.
- `Speakers.BuildIndex` requires the two catalogue columns to be the same length; they are columns of one table.
- Speaker ids are integers, so `np.sort` is integer order.
- `os.listdir` order is taken as the sequence order of the folder.
- `os.path.isfile` is taken as true for every listed name; subdirectories are not modelled.
- `Checkpoints.SortDesc` is stable like Python's `sorted`, but stability is not stated or proved; only descending order and permutation are.
- `Checkpoints.Key`: the source takes `file.split('/')[-1]` first. Folder entries are modelled as the base names `os.listdir` returns, which hold no `/`, so that step is the identity and is left out.
- `Training.ConfigOk`: a zero `TEST_PER_EPOCHS` or `SAVE_PER_EPOCHS` makes train.py:210 or train.py:218 raise ZeroDivisionError on the first pass. The loop model requires both periods to be positive and does not model that error.
- The label map the loop uses is part of `Training.Config`, built once at start-up by `Speakers.BuildIndex`.
- The loop never terminates. It is modelled as one step at a time, plus `Training.Run` over a finite sequence of steps.

## Findings

| source | as written | input that shows it | evidently intended | confidence | as-written member | corrected member |
|---|---|---|---|---|---|---|
| train.py:63-70 | `spk_index` numbers all sorted speakers, before `create_dict` drops those with fewer than two files; the class count `len(unique_speakers)` is taken after the drop | speaker ids [1, 2, 2]: speaker 2 is kept alone (one class) but has label 1 | labels dense over the kept speakers, each below the class count | not executed | Speakers.LabelCanReachClassCount | Speakers.KeptLabelsBelowClassCount |
| train.py:226-231 | the retention key `split('.')[-2]` of `best_model<step>_<eer:.5f>.h5` is the five fractional digits alone, so ranking ignores the integer part | a best checkpoint at EER 1.00000 (key "00000") and one at 0.50000: the pass ranks 1.00000 last and keeps it while removing 0.50000 first. Reachable: until the first test step `eer` keeps its start value 1, so a save step before it writes a best checkpoint at 1.00000 | keep the four checkpoints with the best metric | not executed | Checkpoints.KeyRanksEerOneLast | Checkpoints.RecordPoolAfterSave |
