/**
 * The evaluation callback. Its `metrics` list grows by one record per evaluation round; one
 * round is split at the barrier into its publishing half (evaluate the local shard and store the
 * pair under the worker's rank) and its collecting half (merge every rank's pair in rank order
 * and record the task metrics computed on it).
 */
module MetricsCallback {
  import opened Wrappers
  import opened ShardStore
  import opened LocalEval
  import opened BestMetric

  /** The task's metric formula, already bound to the evaluation set's entries. */
  type MetricFormula = (seq<Tokens>, Option<seq<real>>) -> MetricRecord

  class Metrics {
    /** One record per evaluation round, oldest first. */
    var metrics: seq<MetricRecord>
    const task: string
    const store: KeyValueStore
    const computeMetrics: MetricFormula

    constructor (task: string, store: KeyValueStore, computeMetrics: MetricFormula)
      ensures metrics == []
      ensures this.task == task && this.store == store && this.computeMetrics == computeMetrics
    {
      this.metrics := [];
      this.task := task;
      this.store := store;
      this.computeMetrics := computeMetrics;
    }

    /** The loop over this worker's batches, accumulating its predictions and, for some tasks, its scores. */
    method EvaluateLocal(batches: seq<Batch>) returns (r: Result<Shard, EvalError>)
      ensures r == EvaluateShard(task, batches)
    {
      var predictions: seq<Tokens> := [];
      var scores: seq<real> := [];
      for n := 0 to |batches|
        invariant EvaluateShard(task, batches[..n]) == Success(Shard(predictions, scores))
      {
        assert batches[..n + 1][..n] == batches[..n];
        var output := batches[n].output;
        if task == "mrc" || task == "vinca" {
          scores := scores + output.sequenceScores;
        }
        if |output.sequences| != batches[n].inputRows {
          EvaluationFailurePersists(task, batches, n + 1);
          return Failure(RowMismatch(n));
        }
        predictions := predictions + output.sequences;
      }
      assert batches[..|batches|] == batches;
      return Success(Shard(predictions, scores));
    }

    /** The part of a round before the barrier: evaluate the shard, then store the pair under this worker's rank. */
    method Publish(rank: nat, batches: seq<Batch>) returns (r: Result<Shard, EvalError>)
      modifies store
      ensures r == EvaluateShard(task, batches)
      ensures r.Success? ==> store.entries == old(store.entries)[RankKey(rank) := r.value]
      ensures r.Failure? ==> store.entries == old(store.entries)
    {
      r := EvaluateLocal(batches);
      if r.Success? {
        store.Set(RankKey(rank), r.value);
      }
    }

    /** The collect loop after the barrier: read ranks 0 .. worldSize - 1 in order and merge their pairs. */
    method Collect(worldSize: nat) returns (r: Result<Merged, CollectError>)
      ensures r == Merge(store.entries, worldSize)
    {
      var predictions: seq<Tokens> := [];
      var scores: seq<real> := [];
      for i := 0 to worldSize
        invariant Gather(store.entries, i) == Success(Shard(predictions, scores))
      {
        var key := RankKey(i);
        if key !in store.entries {
          GatherFailurePersists(store.entries, i + 1, worldSize);
          return Failure(MissingShard(i));
        }
        var pair := store.entries[key];
        predictions := predictions + pair.predictions;
        scores := scores + pair.scores;
      }
      if |scores| == 0 {
        return Success(Merged(predictions, None));
      }
      return Success(Merged(predictions, Some(scores)));
    }

    /** The part of a round after the barrier: collect, compute the metrics, and append them to the history. */
    method CollectAndRecord(worldSize: nat) returns (r: Result<MetricRecord, CollectError>)
      modifies this
      ensures match Merge(store.entries, worldSize)
              case Success(m) =>
                r == Success(computeMetrics(m.predictions, m.scores)) && metrics == old(metrics) + [r.value]
              case Failure(e) =>
                r == Failure(e) && metrics == old(metrics)
    {
      var merged := Collect(worldSize);
      if merged.Failure? {
        return Failure(merged.error);
      }
      var record := computeMetrics(merged.value.predictions, merged.value.scores);
      metrics := metrics + [record];
      return Success(record);
    }
  }
}
