/**
 * One worker's evaluation loop over its shard. Generation itself is not modelled: each batch
 * carries the output the model produced for it, and only its shape is checked.
 */
module LocalEval {
  import opened Wrappers
  import opened ShardStore

  /** What generation returns for one batch: the output sequences and one score per sequence. */
  datatype Generation = Generation(sequences: seq<Tokens>, sequenceScores: seq<real>)

  /** One evaluation batch: the number of input rows it holds and the generation output for it. */
  datatype Batch = Batch(inputRows: nat, output: Generation)

  /** The row-count assertion failed on this batch. */
  datatype EvalError = RowMismatch(batch: nat)

  /** Only the `mrc` and `vinca` tasks keep the sequence scores. */
  predicate KeepsScores(task: string)
  {
    task == "mrc" || task == "vinca"
  }

  /** Generation returned exactly one output row per input row. */
  predicate RowsMatch(b: Batch)
  {
    |b.output.sequences| == b.inputRows
  }

  /** The number of input rows in all the batches. */
  function TotalRows(batches: seq<Batch>): nat
  {
    if |batches| == 0 then 0 else TotalRows(batches[..|batches| - 1]) + batches[|batches| - 1].inputRows
  }

  /**
   * The loop over the batches: the scores of a batch are appended when the task keeps them, the
   * row count is asserted, and the output rows are appended to the predictions. A failing
   * assertion ends the evaluation at the first mismatching batch.
   */
  function EvaluateShard(task: string, batches: seq<Batch>): Result<Shard, EvalError>
  {
    if |batches| == 0 then Success(Shard([], []))
    else
      var b := batches[|batches| - 1];
      match EvaluateShard(task, batches[..|batches| - 1])
      case Failure(e) => Failure(e)
      case Success(acc) =>
        var scores := if KeepsScores(task) then acc.scores + b.output.sequenceScores else acc.scores;
        if RowsMatch(b) then Success(Shard(acc.predictions + b.output.sequences, scores))
        else Failure(RowMismatch(|batches| - 1))
  }

  /** Every batch has one generated row per input row. */
  predicate AllRowsMatch(batches: seq<Batch>)
  {
    forall i :: 0 <= i < |batches| ==> RowsMatch(batches[i])
  }

  /**
   * Local evaluation succeeds iff every batch passes the row-count assertion, and otherwise fails
   * at the first batch that does not. On success there is one prediction per input row, and no
   * score unless the task keeps them.
   */
  lemma {:induction false} EvaluateShardOutcome(task: string, batches: seq<Batch>)
    ensures EvaluateShard(task, batches).Success? <==> AllRowsMatch(batches)
    ensures EvaluateShard(task, batches).Failure? ==>
      var bad := EvaluateShard(task, batches).error.batch;
      bad < |batches| && !RowsMatch(batches[bad]) && AllRowsMatch(batches[..bad])
    ensures EvaluateShard(task, batches).Success? ==>
      |EvaluateShard(task, batches).value.predictions| == TotalRows(batches)
    ensures EvaluateShard(task, batches).Success? && !KeepsScores(task) ==>
      EvaluateShard(task, batches).value.scores == []
  {
    if |batches| > 0 {
      var front := batches[..|batches| - 1];
      var b := batches[|batches| - 1];
      EvaluateShardOutcome(task, front);
      assert forall i :: 0 <= i < |front| ==> front[i] == batches[i];
      var prev := EvaluateShard(task, front);
      if prev.Failure? {
        var bad := prev.error.batch;
        assert front[..bad] == batches[..bad];
        assert !AllRowsMatch(batches) by {
          assert !RowsMatch(batches[bad]);
        }
      } else if !RowsMatch(b) {
        assert front == batches[..|batches| - 1];
        assert !AllRowsMatch(batches);
      } else {
        assert AllRowsMatch(batches);
      }
    }
  }

  function SequenceLists(batches: seq<Batch>): (r: seq<seq<Tokens>>)
    ensures |r| == |batches| && forall i :: 0 <= i < |batches| ==> r[i] == batches[i].output.sequences
  {
    seq(|batches|, i requires 0 <= i < |batches| => batches[i].output.sequences)
  }

  function SequenceScoreLists(batches: seq<Batch>): (r: seq<seq<real>>)
    ensures |r| == |batches| && forall i :: 0 <= i < |batches| ==> r[i] == batches[i].output.sequenceScores
  {
    seq(|batches|, i requires 0 <= i < |batches| => batches[i].output.sequenceScores)
  }

  /**
   * A successful evaluation publishes all generated rows in batch order, and the scores of all
   * batches in batch order when the task keeps them (none otherwise).
   */
  lemma {:induction false} EvaluateShardContents(task: string, batches: seq<Batch>)
    requires EvaluateShard(task, batches).Success?
    ensures EvaluateShard(task, batches).value.predictions == Flatten(SequenceLists(batches))
    ensures EvaluateShard(task, batches).value.scores
         == if KeepsScores(task) then Flatten(SequenceScoreLists(batches)) else []
  {
    if |batches| > 0 {
      var front := batches[..|batches| - 1];
      var b := batches[|batches| - 1];
      EvaluateShardContents(task, front);
      assert SequenceLists(batches) == SequenceLists(front) + [b.output.sequences];
      assert SequenceScoreLists(batches) == SequenceScoreLists(front) + [b.output.sequenceScores];
      FlattenAppend(SequenceLists(front), b.output.sequences);
      FlattenAppend(SequenceScoreLists(front), b.output.sequenceScores);
    }
  }

  /** Once a batch fails its row-count assertion, the evaluation of any longer batch list fails with that error. */
  lemma {:induction false} EvaluationFailurePersists(task: string, batches: seq<Batch>, n: nat)
    requires n <= |batches| && EvaluateShard(task, batches[..n]).Failure?
    ensures EvaluateShard(task, batches) == EvaluateShard(task, batches[..n])
  {
    if n < |batches| {
      var front := batches[..|batches| - 1];
      assert front[..n] == batches[..n];
      EvaluationFailurePersists(task, front, n);
    } else {
      assert batches[..n] == batches;
    }
  }
}
