# Distributed evaluation merge and best-metric selection of the KLUE fine-tuning driver

This project models the two pieces of `pkot5/klue/finetuning.py` that carry logic of their own:

* **The evaluation round of the `Metrics` callback** (`on_evaluate`). Each worker loops over the
  batches of its evaluation shard. It appends the generated rows to its predictions, and it
  appends the sequence scores only for the `mrc` and `vinca` tasks. It asserts that each batch
  produced one row per input row. It then stores the pair (predictions, scores) in the key-value
  store under the decimal string of its rank. After the barrier, every worker reads the keys of
  ranks `0 .. world_size - 1` in ascending order and concatenates the pairs. An empty merged
  score list becomes `None`. It computes the task metrics on the merged lists and appends that
  record to the callback's `metrics` history.
* **The best-metric selection of `train`.** It scans the history once. The first record becomes
  the running best. A later record replaces it when it is greater than or equal to it on *any*
  key of the running best.

Modules:

* `Wrappers` (`wrappers.dfy`): `Option` and `Result`.
* `ShardStore` (`shard_store.dfy`): store keys (`RankKey`, the decimal spelling of a rank, proved
  injective), the collect loop as a function (`Gather`, then `Merge`, which turns empty scores into `None`), and a reference definition of
  the merged result (`ConcatAll`, built on `Flatten`). It also proves lemmas about publishing in
  any order, and holds the `KeyValueStore` class, whose `entries` change in place on `Set`.
* `LocalEval` (`local_eval.dfy`): the per-batch loop as a function (`EvaluateShard`) and its
  properties.
* `BestMetric` (`best_metric.dfy`): metric records as insertion-ordered entry lists, the
  short-circuiting `any(...)` test (`AnyAtLeast`), the selection as a function (`BestOf`) and as a
  loop (`SelectBest`), and its properties.
* `MetricsCallback` (`metrics_callback.dfy`): the class `Metrics`. Its `metrics` field is the
  history, and its methods are the loops of `on_evaluate`, each proved against the function above.

Error paths follow the code:

* The failed row-count assertion becomes `RowMismatch(batch)`, for the first mismatching batch.
* Decoding the nil value of an absent key becomes `MissingShard(rank)`, for the first missing
  rank in ascending order.
* A `KeyError` in the comparison becomes `KeyError(key)`. It is raised only when `any` reaches a
  missing key before it reaches a key on which the later record is at least as large.

## Model

| member | source | states |
|---|---|---|
| `ShardStore.RankKeyIsDecimal` | pkot5/klue/finetuning.py:65 | the key of a rank is a non-empty string of decimal digits with no leading zero, as `f"{rank}"` writes it |
| `ShardStore.RankKeyInjective` | pkot5/klue/finetuning.py:65-69 | two ranks have the same key iff they are the same rank, so the key read for rank `i` is the one rank `i` wrote |
| `ShardStore.PublishOverwritesOnlyOwnSlot` | pkot5/klue/finetuning.py:65 | after a publish the rank's own slot holds its pair, whatever it held before; every other rank's slot is present and holds what it held before |
| `ShardStore.KeyValueStore.constructor` | pkot5/klue/finetuning.py:86-88 | a client of the store sees the contents the store already holds |
| `ShardStore.KeyValueStore.Set` | pkot5/klue/finetuning.py:65 | `set` overwrites the key's value in place and leaves every other key as it was |
| `ShardStore.PublishAllLookup` | pkot5/klue/finetuning.py:65-66 | in any publishing order before the barrier, every rank that published finds its own pair in its slot |
| `ShardStore.GatherOutcome` | pkot5/klue/finetuning.py:67-71 | collect succeeds iff the keys of all ranks `0 .. n-1` are present; on failure it names the lowest missing rank, all ranks below it being present |
| `ShardStore.GatherFailurePersists` | pkot5/klue/finetuning.py:68-69 | a missing rank stops the loop: collecting over more ranks fails with the same error |
| `ShardStore.GatherIsConcat` | pkot5/klue/finetuning.py:67-71 | when slot `i` holds shard `i` for every rank, collect equals the reference concatenation of the shards in ascending rank order |
| `ShardStore.ConcatAllOrder` | pkot5/klue/finetuning.py:67-71 | the merged predictions number the sum of the shard sizes, and prediction `p` of rank `i` sits at the total size of the ranks below `i`, plus `p` |
| `ShardStore.ConcatAllScoreOrder` | pkot5/klue/finetuning.py:67-71 | the merged scores have the same length-and-position property, rank by rank |
| `ShardStore.MergedScoresNoneIff` | pkot5/klue/finetuning.py:71-73 | the merged scores are `None` iff every rank published an empty score list, and are otherwise the concatenated list |
| `ShardStore.RoundMergesInRankOrder` | pkot5/klue/finetuning.py:65-73 | if every rank `0 .. n-1` publishes before the barrier, in any order, collect returns their pairs concatenated in rank order |
| `ShardStore.SingleWorkerCollectsOwnPair` | pkot5/klue/finetuning.py:65-73 | with world size 1, collect returns exactly the pair the worker published, with empty scores turned into `None` |
| `ShardStore.TwoWorkerRound` | pkot5/klue/finetuning.py:65-73 | two workers with predictions (a, b) and (c) and no scores: collect yields (a, b, c) and `None`, even when rank 1 publishes first |
| `LocalEval.EvaluateShardOutcome` | pkot5/klue/finetuning.py:48-63 | local evaluation succeeds iff every batch has one generated row per input row, and otherwise fails at the first mismatching batch; on success there is one prediction per input row, and no score unless the task is `mrc` or `vinca` |
| `LocalEval.EvaluateShardContents` | pkot5/klue/finetuning.py:59-63 | on success the predictions are all generated rows in batch order, and the scores are all sequence scores in batch order for `mrc`/`vinca` and empty otherwise |
| `LocalEval.EvaluationFailurePersists` | pkot5/klue/finetuning.py:61 | a failed assertion ends the loop: evaluating more batches fails with the same error |
| `MetricsCallback.Metrics.constructor` | pkot5/klue/finetuning.py:29-35 | a new callback starts with an empty history and keeps its task, store and metric formula |
| `MetricsCallback.Metrics.EvaluateLocal` | pkot5/klue/finetuning.py:40-63 | the batch loop computes exactly the local evaluation result, including its error |
| `MetricsCallback.Metrics.Publish` | pkot5/klue/finetuning.py:48-65 | on success the store maps this rank's key to the evaluated pair and is otherwise unchanged; on failure nothing is stored |
| `MetricsCallback.Metrics.Collect` | pkot5/klue/finetuning.py:67-73 | the rank loop computes exactly the merge of the store over ranks `0 .. world_size-1`, including the missing-rank error |
| `MetricsCallback.Metrics.CollectAndRecord` | pkot5/klue/finetuning.py:67-74 | a successful round appends exactly one record, the metrics of the merged lists, and keeps earlier records; a failed one leaves the history as it was |
| `BestMetric.Lookup` | pkot5/klue/finetuning.py:138 | `metric[k]` has a value iff the record has an entry named `k`, and that value is the value of such an entry |
| `BestMetric.AnyAtLeastOutcome` | pkot5/klue/finetuning.py:138 | false iff every key of the best is present and strictly smaller in the new record; true only if some key is at least as large; an error only for a key of the best missing from the new record |
| `BestMetric.AnyAtLeastIff` | pkot5/klue/finetuning.py:138 | when the new record holds every key of the best, there is no error, and the answer is whether the record is at least as large on some key |
| `BestMetric.BestOfIsRecorded` | pkot5/klue/finetuning.py:134-139 | the selection, when it raises no error, is `None` iff no round was recorded, and otherwise is one of the recorded records |
| `BestMetric.BestOfFailurePersists` | pkot5/klue/finetuning.py:138 | a `KeyError` in one round ends the selection with that error |
| `BestMetric.BestOfSucceeds` | pkot5/klue/finetuning.py:134-139 | if every record has all keys of the earlier records, the selection raises nothing, and is `None` exactly for an empty history |
| `BestMetric.StepReplacesIff` | pkot5/klue/finetuning.py:138-139 | a record with all keys of the running best replaces it iff it is greater than or equal to it on at least one of those keys |
| `BestMetric.TieFavoursLater` | pkot5/klue/finetuning.py:138-139 | a later record equal to a non-empty running best on its keys replaces it |
| `BestMetric.FirstRecordRetained` | pkot5/klue/finetuning.py:136-139 | if every later record is strictly below the first on all the first's keys, the first record is selected |
| `BestMetric.BestIsLastWinner` | pkot5/klue/finetuning.py:135-139 | the selected record is a record of the history, and every record after it is strictly below it on all of its keys |
| `BestMetric.SelectBest` | pkot5/klue/finetuning.py:134-139 | the selection loop computes exactly the selection function, including the `KeyError` |
| `BestMetric.LowerSecondRoundKeepsFirst` | pkot5/klue/finetuning.py:134-139 | rounds `{em: 0.80}` then `{em: 0.79}` select `{em: 0.80}` |

## Left out

- Model inference: `model.generate`, `.cuda()`, `torch.no_grad`, `model.eval` and `model.train` are GPU and framework calls. Each batch carries its generation output as data, and only its row count is checked.
- The data loader, the distributed sampler for evaluation, the data collator, the tokenizer and the dataset classes are library code. What they produce is the list of batches given to the evaluation loop.
- The task processors' `compute_metrics` is outside this model. It is a metric formula parameter of the callback, already bound to the evaluation entries.
- `dist.get_rank`, `dist.get_world_size` and `dist.barrier` are process-group calls. Rank and world size are parameters. The barrier is the point between `Metrics.Publish` and `Metrics.CollectAndRecord`. Concurrent interleavings before it are covered only as an arbitrary publishing order (`PublishAll`).
- Redis networking is replaced by an in-memory map from keys to values.
- Pickle serialisation is taken as the identity, so its round trip holds by construction.
- Floating-point metric values and scores are modelled as `real`. NaN, which makes `>=` false both ways, is not modelled.
- Repeated keys in a record: a Python dict has distinct keys. An entry list with a repeated name is not excluded; the model reads its first entry, and `AnyAtLeast` compares against the entry's own value.
- The `print` calls and the progress bar are output only.
- The fold loop of `train` is library calls: `KFold` splitting, model and trainer construction, `Seq2SeqTrainer` training and checkpoint saving. Only its best-metric selection is modelled.
- Writing `result_<task>.txt` (lines 141-144) is file I/O. So are the environment variables and the `fire` command line.
