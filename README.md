# char-lm core in Dafny

This project models the logic of char-lm, a character-level language model trainer. It covers three parts:

- **The rolling minibatch iterator for truncated backpropagation through time** (`data.py`).
  - A `TextBatcher` holds a corpus of classes 0..26 and one read cursor per batch slot.
  - Each read copies `s + 1` consecutive symbols per slot, wrapping past the end of the corpus. The cursor then advances by `s`.
  - A `DataIter` owns two `[window][batch]` buffers, input and target. Each step shifts them left by the step size in place and refills the last columns from the batcher.
- **The epoch accounting and the learning-rate annealing with patience of the training driver** (`train.py`).
  - The frame quota of an epoch and the epoch loop.
  - The pivot/prev/best checkpoint scheduler, which keeps, retries or rolls back after each epoch and stops when the learning rate falls below its floor.
  - The final restore of the best network.
- **The character codec of the text generator** (`gen_text.py`).
  - The seed text is lower-cased and checked against `' abcdefghijklmnopqrstuvwxyz'`.
  - Characters are encoded as `ord(c) % 32`.
  - A sampled class `i` is printed as `chr(i + 96)`, or as a blank for 0.

Modules, one per file:

- `Wrappers`: `Option` and `Result`.
- `Arith`: the remainder and product facts that the cursor and frame arithmetic rests on.
- `Codec`: `gen_text.py`.
- `Data`: `data.py`.
  - `TextBatcher` and `DataIter` are classes whose fields change in place. The cursors are a `seq<int>` that each read reassigns.
  - The two buffers are `array2<int>`, shifted and refilled element-wise by parallel `forall` assignments. These stand for the numpy slice assignments.
  - A ghost field `filled` counts how many trailing columns of the window already hold corpus data.
- `Losses`: the float losses of the driver.
  - A loss is `NaN`, a finite real, or `+inf`.
  - Comparisons follow numpy: every comparison with NaN is false.
- `Train`: the epoch quota, and `RunEpoch` as a loop method over a `DataIter`.
- `Schedule`: the annealing scheduler.
  - The driver's local variables are one `Scheduler` value.
  - The weights of the network are an opaque type parameter `W`. The checkpoint workspace is a `map<Slot, W>` over the slots `'0'`, `'1'` and the automatically named best slot.
  - `Epoch` is the decision after one epoch. `Anneal` is the driver's loop over a sequence of epoch reports. `Replay` is its reference definition.

### The best loss is not monotone

One would expect `loss_best` never to increase. The code does not guarantee it.

- The best checkpoint is overwritten when `trained_frames == trained_frames_per_epoch` (train.py:268).
- A rollback to a pivot taken at zero frames makes the next epoch look like a first epoch.
- That epoch then replaces the best network whatever its loss.

The model follows the code. `Schedule.BestCanRiseAfterRollbackToStart` exhibits such a run: `max_retry = 0`, and losses 2.0, 3.0, 5.0. The best loss stays non-increasing from every state with `trained_frames != 0` (`Schedule.Epoch`).

### A frame quota of zero

When `frames_per_epoch < step_size * batch_size`, the quota `trained_frames_per_epoch` is 0 (train.py:179-180). Then `trained_frames` stays 0, so every epoch passes the first-epoch test `trained_frames == trained_frames_per_epoch` and is never a regression. The schedule overwrites the best checkpoint after every epoch and never stops (`Schedule.EmptyQuotaEpoch`, `Schedule.EmptyQuotaNeverStops`). Training still happens: `run_epoch` takes one step, including its parameter update, before its `frames_seen >= 0` test ends the loop (train.py:202-215). Only the counter stays at 0.

## Model

| member | source | states |
|---|---|---|
| Codec.Lower | gen_text.py:37 | an upper-case ASCII letter maps to its lower-case letter, every other character to itself; the result is never upper-case |
| Codec.LowerText | gen_text.py:37 | lower-casing keeps the length and lower-cases each character in place, leaving no upper-case letter |
| Codec.AllowedChars | gen_text.py:38 | a character is in the allowed string exactly when it is the blank or a lower-case letter |
| Codec.AllowedAt | gen_text.py:38 | the allowed string has 27 characters, and position k holds the blank for k = 0 and `chr(k + 96)` otherwise |
| Codec.Encode | gen_text.py:62 | an allowed character encodes to a class in 0..26, namely its own position in the allowed string |
| Codec.Decode | gen_text.py:78 | every class decodes to an allowed character, the one at that class's position in the allowed string |
| Codec.DecodeEncode | gen_text.py:62 | decoding the encoding of an allowed character gives the character back |
| Codec.EncodeDecode | gen_text.py:78 | encoding the decoding of a class gives the class back, so the codec is a bijection between the 27 characters and 0..26 |
| Codec.CheckText | gen_text.py:38-42 | the scan accepts exactly the texts whose every character is allowed |
| Codec.EncodeText | gen_text.py:62 | a checked text becomes one class per character, each the position of its character in the allowed string |
| Codec.DecodeText | gen_text.py:78 | decoding keeps the length, and each class k prints the allowed string's character at position k |
| Codec.TextRoundTrip | gen_text.py:62 | a checked text comes back unchanged from encoding and decoding |
| Codec.PrepareSeed | gen_text.py:37-42 | the seed is accepted exactly when every lower-cased character is allowed; an accepted seed yields one class per character, and these decode to the lower-cased text |
| Codec.SeedAcceptsLetters | gen_text.py:37 | blanks and letters of either case pass the check after lower-casing, and an upper-case letter X encodes as `ord(X) - 64` |
| Data.Reduce | data.py:68 | the reduction of a signed byte lies in 0..31 and is congruent to the byte mod 32, as numpy's remainder with a positive divisor is |
| Data.LoadCorpus | data.py:68-72 | an empty file fails with EmptyText, a file with a reduced byte above 26 fails with BadText, and otherwise the corpus is the reduced bytes, all in 0..26 |
| Data.ReduceFoldsCase | data.py:67-68 | the blank, the lower-case and the upper-case letters reduce into 0..26 with case folded; the result equals the generator's encoding of the lower-cased character, and is 0 only for the blank |
| Data.CursorAdvance | data.py:92 | the written update `((c + s + 1) % n - 1) % n` is an advance by s mod n, also across the end of the corpus |
| Data.TextBatcher.constructor | data.py:66-75 | a batcher over a non-empty corpus with the given cursors, each in [0, n) |
| Data.TextBatcher.Open | data.py:66-75 | construction fails exactly when loading fails, with the same error; otherwise it yields a valid batcher over the loaded corpus with the given cursors |
| Data.TextBatcher.Next | data.py:77-94 | row k of slot i is the corpus symbol at `(c_i + k) mod n` for k in 0..s, so rows 0..s-1 are the input and rows 1..s the target one symbol ahead; every cursor becomes `(c_i + s) mod n` and stays in [0, n) |
| Data.TextBatcher.Size | data.py:96-97 | the size is the corpus length, which is positive and never changes |
| Data.ReadColumns | data.py:81-90 | the per-slot loop fills column i with the s + 1 symbols from cursor i, wrapping past the end |
| Data.ReadSlot | data.py:85-90 | the non-wrapping slice and the two-piece wrapping copy both give the symbol at `(c + k) mod n` in row k, and leave the other columns alone |
| Data.ReadWithoutWrap | data.py:85-86 | when the end index lies past the cursor, the read does not wrap, and the slice has s + 1 symbols |
| Data.ReadWithWrap | data.py:87-90 | otherwise the read wraps: the tail piece has n - c symbols and the head piece the rest |
| Data.AdvanceCursors | data.py:92 | the new cursors are the old ones advanced by s mod n, each in [0, n) |
| Data.AdvancedTwice | data.py:92 | advancing by x and then by y is advancing by x + y |
| Data.ReadsAreContiguous | data.py:82-94 | the first symbol of a read equals the last symbol of the read before it in every slot, so no symbol is skipped or repeated, also across the wrap-around |
| Data.DataIter.constructor | data.py:103-111 | the window and step are recorded, both buffers are all zero, and no column holds corpus data yet |
| Data.DataIter.Open | data.py:103-111 | a step larger than the window fails first with StepTooLarge; then a failed load fails with its error; otherwise it yields a valid iterator over the loaded corpus |
| Data.DataIter.SetStepSize | data.py:113-115 | the step is refused exactly when it exceeds the window; otherwise it is recorded, and nothing else changes |
| Data.DataIter.Next | data.py:117-125 | columns 0..W-s-1 take the old values of columns s..W-1; columns W-s..W-1 take the new input and target read from the old cursors; the buffers themselves are returned; cursors advance by s; and the window invariant holds with min(F + s, W) filled columns |
| Data.DataIter.Size | data.py:127-128 | the iterator's size is its corpus length |
| Data.ShiftBuffer | data.py:120-121 | `a[:-s] = a[s:]` moves every column s places left and keeps the last s columns |
| Data.RefillBuffer | data.py:123 | the last s columns take s consecutive rows of a read, after which the buffer agrees with the advanced cursors |
| Data.Slide | data.py:120-123 | a shift followed by a refill takes a buffer in step with the old cursors to one in step with the advanced cursors |
| Losses.Less | train.py:268 | `<` holds only between two non-NaN, distinct losses, the left one not +inf |
| Losses.Greater | train.py:276 | `>` holds only between two non-NaN, distinct losses, the right one not +inf |
| Losses.LessEq | train.py:268 | `<=` holds exactly between two non-NaN losses where the left is less than or equal to the right |
| Losses.Sanitize | train.py:265-266 | a NaN loss becomes +inf, which is at least every other loss; other losses are unchanged; the result is never NaN |
| Losses.OrderIsTotal | train.py:276 | apart from NaN, the comparisons form a strict total order, and `<=` is transitive |
| Losses.Add | train.py:208 | a sum is NaN exactly when a summand is; finite summands add as reals |
| Losses.Mean | train.py:216 | the mean is finite exactly when the sum is, and then it times the frame count is the sum |
| Train.TrainedFramesPerEpoch | train.py:178-180 | the quota is a multiple of `step_size * batch_size`, at most `frames_per_epoch`, and more than `frames_per_epoch - step_size * batch_size` |
| Train.StepSizeFor | train.py:188-195 | training steps by `step_size`, evaluation by `window_size`, so an evaluation step never exceeds the window |
| Train.SumLoss | train.py:199-208 | the loss sum over k steps is NaN exactly when a step loss is, and finite when every step loss is |
| Train.EpochSteps | train.py:209-215 | at least one step; the steps cover the quota; and one step fewer would not, unless only one step is taken |
| Train.EpochStepsIs | train.py:214-215 | any count with these properties is the epoch's step count: it is `max(1, ceil(quota / frames_per_step))` |
| Train.StepsOfMultiple | train.py:214-215 | a quota of m whole steps takes exactly m steps |
| Train.TrainingEpochExact | train.py:178-215 | a non-zero training quota is reached exactly: `frames_seen == trained_frames_per_epoch` at the end of a training epoch |
| Train.Pull | train.py:202 | one pass of the epoch loop advances the cursors and the filled part of the window by one more step |
| Train.RunEpoch | train.py:182-216 | the step is the training step with a learning rate and the window without; the loop runs EpochSteps times; it returns the mean of the step losses over the frames seen; the iterator stays valid with its cursors advanced by steps * step |
| Schedule.Start | train.py:224-244 | all frame counters are zero; the pivot, prev and best losses are 0.0; the pivot is named `'0'` and prev `'1'`; the rate is the initial rate with no retry; the initial network is the current one and is saved as prev and as best; and the scheduler invariant holds |
| Schedule.Epoch | train.py:250-314 | keeps the scheduler invariant; adds the quota to trained plus discarded frames; overwrites the best exactly on a strictly lower loss or a first epoch; regresses exactly on a strictly higher loss after a non-first epoch; and on progress, retry, rollback and stop, gives the whole new state as listed below |
| Schedule.RestoreBest | train.py:317-322 | the frames since the best checkpoint are discarded, and the trained/discarded sum is kept; the best network is loaded; the pivot and prev checkpoints are removed; the rate, the retry count, the three losses and the best and pivot frame counts are left as they were |
| Schedule.Replay | train.py:246-322 | epochs run in order until one stops the schedule; every epoch adds its quota to the trained/discarded sum; a stopped run has a rate below the floor and the best network loaded, with only the best checkpoint left; an unstopped run consumed every report and keeps the invariant |
| Schedule.OnlyBestLeft | train.py:321-322 | removing the pivot and prev names leaves only the best checkpoint |
| Schedule.Anneal | train.py:224-322 | the driver's loop computes exactly Replay from the start state, so trained plus discarded frames is epochs times the quota, and on stopping the best network is loaded with the rate below the floor |
| Schedule.ReplayUnfold | train.py:246-314 | an epoch that does not stop is followed by the replay of the remaining reports |
| Schedule.RetryStep | train.py:276-304 | a regression within the patience is a retry; the replay continues from the state with more frames, the new weights and the retry count one higher |
| Schedule.LastStraw | train.py:279-297 | the regression that exhausts the patience decays the rate once; then either it stops, or it rolls back to the pivot frames, weights and loss |
| Schedule.PatienceRunsOut | train.py:276-306 | after c retries, max_retry + 1 - c regressions in a row decay the rate exactly once and reset the count; then the schedule stops exactly when the decayed rate is below the floor, and otherwise it is back at the pivot's frames, weights and loss, with those weights saved as prev, and the discarded frames grow by `trained_frames + k * quota - trained_frames_at_pivot` for the k regressions |
| Schedule.FramesAreWholeSteps | train.py:178-180 | from the start state built from the options, trained plus discarded frames is always a multiple of `step_size * batch_size` and at most epochs times `frames_per_epoch` |
| Schedule.EmptyQuotaEpoch | train.py:268-276 | with a zero quota, an epoch from zero frames is a first epoch: it is progress with the retry count reset, `trained_frames` stays 0, and the best checkpoint takes this epoch's network and loss whatever the loss |
| Schedule.EmptyQuotaNeverStops | train.py:268-276 | with a zero quota (`frames_per_epoch < step_size * batch_size`), the replay consumes every report and never stops; `trained_frames` stays 0 and the retry count 0; after the last epoch, best and prev hold that epoch's loss and the best slot its network. Each epoch still runs one training step that the counter does not record |
| Schedule.BestCanRiseAfterRollbackToStart | train.py:268-296 | with max_retry 0 and losses 2.0, 3.0 and 5.0, the second epoch rolls back to zero frames, and the third then raises the best loss from 2.0 to 5.0 |

`Schedule.Epoch` states, for one epoch with validation loss `l`, where `cur = Sanitize(l)`:

- **Invariant.** The scheduler invariant is kept:
  - the pivot is not ahead of the network;
  - `cur_retry <= max_retry`;
  - no loss register is NaN;
  - the best loss is at most the prev loss whenever `trained_frames` is non-zero, and at most the pivot loss once the pivot is at a non-zero frame count;
  - the names are `'0'` and `'1'` in some order;
  - every checkpoint that can be loaded was saved.
- **Frames and checkpoints.** Trained plus discarded frames grows by the quota, and no checkpoint is removed.
- **Best.** The best slot, `loss_best` and `trained_frames_at_best` are overwritten exactly when `cur < loss_best` or this is the first epoch after zero frames.
- **Regression.** A regression is exactly `cur > loss_prev` after a non-first epoch; a tie counts as progress.
- **Progress.** The retry count resets, the pivot takes over the prev frames and loss, the names swap, and the current weights go to the new prev slot.
- **Retry.** Only the frames, the weights and the retry count change.
- **Patience exhausted.** The count resets and the rate is multiplied by the decay exactly once. The schedule stops exactly when the decayed rate is below the floor; a stop changes nothing else but the frames and the weights of this epoch. Otherwise it rolls back: frames, weights and `loss_prev` come from the pivot, the restored weights are saved as prev, and the frames since the pivot are discarded. The pivot, the best and the names are untouched in both cases.

## Left out

- `net.py` is not part of this model: forward and backward propagation, the parameter update and the optimizer reset. The per-step losses of an epoch are an input function of `RunEpoch`. The weights an epoch trains and its validation loss are the inputs of `Schedule.Epoch`.
- Reading the text file (`np.fromfile`) is left out: a file is its sequence of signed bytes. Checkpoint files become entries of the workspace map.
- The random initial cursors are a parameter of construction. The model only requires each one to lie in `[0, n)`.
- The float32 rounding of the mean loss, the float64 rounding and overflow of the `loss_sum` accumulation (train.py:208) and the float rounding of the learning rate are not modelled: losses and the rate are reals, with NaN and +inf explicit, and `Losses.Add` adds finite losses exactly.
- Printing, timing, argument parsing, the evaluation after the restore (train.py:324 onwards), ensemble.py, plot_log.py and the plots are not modelled.
- gen_text.py beyond the codec is left out: the configuration file, the network calls and the probability renormalisation and sampling.
- Lower-casing is ASCII only, as `str.lower` on byte strings is; non-ASCII case mappings are not modelled.
- Data.TextBatcher.Next requires `s + 1 <= n`. For longer reads the source either fails on a shape mismatch or, where numpy broadcasts a one-row slice (n = 2, s = 2, cursor 0), silently fills the column with a wrong read.
- Data.DataIter.Next requires `1 <= step`. With a step of 0, `[-0:]` covers the whole buffer and the assignment fails.
- Train.RunEpoch requires a positive step and batch size, and a window shorter than the corpus. With a zero frame count per step the source loop never reaches a positive quota.
- Schedule.Anneal consumes a finite sequence of epoch reports. The driver's `while True` has no bound, and its termination is not modelled.
- Train.TrainedFramesPerEpoch requires a positive `step_size * batch_size`; the source divides by zero at train.py:180 when either is 0.
