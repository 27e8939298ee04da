/**
 * Choosing the best evaluation record of a fold. A record is a metric dictionary: its entries
 * in insertion order, which is the order in which `keys()` yields them. A later record replaces
 * the running best as soon as it is greater than or equal to it on ANY key of the running best.
 */
module BestMetric {
  import opened Wrappers

  /** One metric of a record: its name and its value. */
  datatype Entry = Entry(name: string, value: real)

  /** A metric dictionary, its entries in insertion order. */
  type MetricRecord = seq<Entry>

  /** `record[key]` found no such key. */
  datatype LookupError = KeyError(key: string)

  /** Has the record an entry with this name? */
  predicate HasKey(r: MetricRecord, key: string)
  {
    exists i :: 0 <= i < |r| && r[i].name == key
  }

  /** `record[key]`: the value stored under the key, if there is one. */
  function Lookup(r: MetricRecord, key: string): (v: Option<real>)
    ensures v.Some? <==> HasKey(r, key)
    ensures v.Some? ==> exists i :: 0 <= i < |r| && r[i] == Entry(key, v.value)
  {
    if |r| == 0 then None
    else if r[0].name == key then Some(r[0].value)
    else
      assert forall i :: 1 <= i < |r| ==> r[i] == r[1..][i - 1];
      Lookup(r[1..], key)
  }

  /** The record `metric` has a value for the key of `e`, and it is at least the value of `e`. */
  predicate AtLeastOn(metric: MetricRecord, e: Entry)
  {
    Lookup(metric, e.name).Some? && Lookup(metric, e.name).value >= e.value
  }

  /** Every key of `best` can be looked up in `metric`. */
  predicate Covers(metric: MetricRecord, best: MetricRecord)
  {
    forall i :: 0 <= i < |best| ==> HasKey(metric, best[i].name)
  }

  /** `metric` is strictly below `b` on every key of `b`. */
  predicate StrictlyBelow(metric: MetricRecord, b: MetricRecord)
  {
    Covers(metric, b) && forall i :: 0 <= i < |b| ==> !AtLeastOn(metric, b[i])
  }

  /**
   * `any(metric[k] >= best[k] for k in best.keys())`: the keys of `best` are visited in order,
   * the first key that is at least as large answers true, and a key missing from `metric`
   * reached before that raises.
   */
  function AnyAtLeast(metric: MetricRecord, best: MetricRecord): Result<bool, LookupError>
  {
    if |best| == 0 then Success(false)
    else
      match Lookup(metric, best[0].name)
      case None => Failure(KeyError(best[0].name))
      case Some(v) => if v >= best[0].value then Success(true) else AnyAtLeast(metric, best[1..])
  }

  /**
   * The answer is false iff every key of `best` is present in `metric` with a smaller value; it is
   * true only if some key is at least as large; an error names a key of `best` missing from `metric`.
   */
  lemma {:induction false} AnyAtLeastOutcome(metric: MetricRecord, best: MetricRecord)
    ensures AnyAtLeast(metric, best) == Success(false) <==> StrictlyBelow(metric, best)
    ensures AnyAtLeast(metric, best) == Success(true) ==> exists i :: 0 <= i < |best| && AtLeastOn(metric, best[i])
    ensures AnyAtLeast(metric, best).Failure? ==>
      var key := AnyAtLeast(metric, best).error.key;
      exists i :: 0 <= i < |best| && best[i].name == key && !HasKey(metric, key)
  {
    if |best| > 0 {
      assert forall i :: 1 <= i < |best| ==> best[i] == best[1..][i - 1];
      AnyAtLeastOutcome(metric, best[1..]);
    }
  }

  /** When every key of `best` is in `metric`, no error is raised and the answer is "some key is at least as large". */
  lemma {:induction false} AnyAtLeastIff(metric: MetricRecord, best: MetricRecord)
    requires Covers(metric, best)
    ensures AnyAtLeast(metric, best) == Success(exists i :: 0 <= i < |best| && AtLeastOn(metric, best[i]))
  {
    if |best| > 0 {
      assert forall i :: 1 <= i < |best| ==> best[i] == best[1..][i - 1];
      AnyAtLeastIff(metric, best[1..]);
    }
  }

  /** One step of the selection loop: the first record becomes the best; a later one may replace it. */
  function Step(best: Option<MetricRecord>, metric: MetricRecord): Result<Option<MetricRecord>, LookupError>
  {
    match best
    case None => Success(Some(metric))
    case Some(b) =>
      match AnyAtLeast(metric, b)
      case Failure(e) => Failure(e)
      case Success(any) => Success(Some(if any then metric else b))
  }

  /** The best record of a history: the selection loop run from the first record to the last. */
  function BestOf(history: seq<MetricRecord>): Result<Option<MetricRecord>, LookupError>
  {
    if |history| == 0 then Success(None)
    else
      match BestOf(history[..|history| - 1])
      case Failure(e) => Failure(e)
      case Success(b) => Step(b, history[|history| - 1])
  }

  /** Without an error, the selection is `None` iff no round was recorded, and otherwise one of the recorded records. */
  lemma {:induction false} BestOfIsRecorded(history: seq<MetricRecord>)
    ensures BestOf(history).Success? ==> (BestOf(history).value.None? <==> |history| == 0)
    ensures BestOf(history).Success? && BestOf(history).value.Some? ==> BestOf(history).value.value in history
  {
    if |history| > 0 {
      var front := history[..|history| - 1];
      BestOfIsRecorded(front);
      var prev := BestOf(front);
      if prev.Success? && prev.value.Some? {
        var j :| 0 <= j < |front| && front[j] == prev.value.value;
        assert history[j] == prev.value.value;
      }
    }
  }

  /** Recording one more round runs one more step of the selection. */
  lemma BestOfSnoc(history: seq<MetricRecord>, metric: MetricRecord)
    ensures BestOf(history + [metric])
         == match BestOf(history)
            case Failure(e) => Failure(e)
            case Success(b) => Step(b, metric)
  {
    assert (history + [metric])[..|history|] == history;
  }

  /** Once a round raises, the whole selection raises with that error: the later rounds are never looked at. */
  lemma {:induction false} BestOfFailurePersists(history: seq<MetricRecord>, n: nat)
    requires n <= |history| && BestOf(history[..n]).Failure?
    ensures BestOf(history) == BestOf(history[..n])
  {
    if n < |history| {
      var front := history[..|history| - 1];
      assert front[..n] == history[..n];
      BestOfFailurePersists(front, n);
      assert history == front + [history[|history| - 1]];
      BestOfSnoc(front, history[|history| - 1]);
    } else {
      assert history[..n] == history;
    }
  }

  /** Every record of the history has every key of every earlier record. */
  predicate KeysPersist(history: seq<MetricRecord>)
  {
    forall i, j :: 0 <= j < i < |history| ==> Covers(history[i], history[j])
  }

  /** When keys persist from record to record, the selection raises no error, and it is `None` only for an empty history. */
  lemma {:induction false} BestOfSucceeds(history: seq<MetricRecord>)
    requires KeysPersist(history)
    ensures BestOf(history).Success?
    ensures BestOf(history).value.None? <==> |history| == 0
  {
    if |history| > 0 {
      var front := history[..|history| - 1];
      var last := history[|history| - 1];
      assert KeysPersist(front) by {
        forall i, j | 0 <= j < i < |front| ensures Covers(front[i], front[j]) {
          assert front[i] == history[i] && front[j] == history[j];
        }
      }
      BestOfSucceeds(front);
      BestOfIsRecorded(front);
      match BestOf(front).value
      case None =>
      case Some(b) =>
        var j :| 0 <= j < |front| && front[j] == b;
        assert history[j] == b;
        assert Covers(last, b);
        AnyAtLeastIff(last, b);
    }
  }

  /** The running best `b` is replaced by a record holding all of its keys iff the record is at least as large on some key of `b`. */
  lemma StepReplacesIff(b: MetricRecord, metric: MetricRecord)
    requires Covers(metric, b)
    ensures Step(Some(b), metric)
         == Success(Some(if exists i :: 0 <= i < |b| && AtLeastOn(metric, b[i]) then metric else b))
  {
    AnyAtLeastIff(metric, b);
  }

  /** Ties go to the later record: a record equal to the running best on the best's keys replaces it. */
  lemma TieFavoursLater(b: MetricRecord, metric: MetricRecord)
    requires |b| > 0
    requires forall i :: 0 <= i < |b| ==> Lookup(metric, b[i].name) == Some(b[i].value)
    ensures Step(Some(b), metric) == Success(Some(metric))
  {
    assert AtLeastOn(metric, b[0]);
    AnyAtLeastIff(metric, b);
  }

  /** A first record that every later record is strictly below on all of its keys is retained. */
  lemma {:induction false} FirstRecordRetained(history: seq<MetricRecord>)
    requires |history| > 0
    requires forall i :: 1 <= i < |history| ==> StrictlyBelow(history[i], history[0])
    ensures BestOf(history) == Success(Some(history[0]))
  {
    if |history| > 1 {
      var front := history[..|history| - 1];
      assert forall i :: 1 <= i < |front| ==> front[i] == history[i];
      FirstRecordRetained(front);
      AnyAtLeastIff(history[|history| - 1], history[0]);
    } else {
      assert history[..0] == [];
    }
  }

  /**
   * The selected record is one of the history, and every record after it is strictly below it on
   * all of its keys: it is the last record that won its comparison.
   */
  lemma {:induction false} BestIsLastWinner(history: seq<MetricRecord>)
    requires BestOf(history).Success? && BestOf(history).value.Some?
    ensures exists j :: 0 <= j < |history| && history[j] == BestOf(history).value.value
                        && forall i :: j < i < |history| ==> StrictlyBelow(history[i], history[j])
  {
    var front := history[..|history| - 1];
    var last := history[|history| - 1];
    assert history == front + [last];
    BestOfSnoc(front, last);
    var b := BestOf(history).value.value;
    if BestOf(front).value.None? || b == last {
      assert history[|history| - 1] == b;
    } else {
      var fb := BestOf(front).value.value;
      assert b == fb;
      assert AnyAtLeast(last, fb) == Success(false);
      AnyAtLeastOutcome(last, fb);
      BestIsLastWinner(front);
      var j :| 0 <= j < |front| && front[j] == fb
               && forall i :: j < i < |front| ==> StrictlyBelow(front[i], front[j]);
      assert history[j] == b;
      forall i | j < i < |history| ensures StrictlyBelow(history[i], history[j]) {
        if i < |front| {
          assert front[i] == history[i];
        }
      }
    }
  }

  /** The selection loop of the training driver: scan the recorded rounds once, keeping the running best. */
  method SelectBest(history: seq<MetricRecord>) returns (r: Result<Option<MetricRecord>, LookupError>)
    ensures r == BestOf(history)
  {
    var best: Option<MetricRecord> := None;
    for n := 0 to |history|
      invariant BestOf(history[..n]) == Success(best)
    {
      var metric := history[n];
      assert history[..n + 1] == history[..n] + [metric];
      BestOfSnoc(history[..n], metric);
      assert BestOf(history[..n + 1]) == Step(best, metric);
      if best.None? {
        best := Some(metric);
      } else {
        var any := AnyAtLeast(metric, best.value);
        if any.Failure? {
          BestOfFailurePersists(history, n + 1);
          return Failure(any.error);
        }
        if any.value {
          best := Some(metric);
        }
      }
    }
    assert history[..|history|] == history;
    return Success(best);
  }

  /** Two rounds scoring 0.80 and then 0.79 on `em`: the first round is kept. */
  lemma LowerSecondRoundKeepsFirst()
    ensures BestOf([[Entry("em", 0.80)], [Entry("em", 0.79)]]) == Success(Some([Entry("em", 0.80)]))
  {
    var history := [[Entry("em", 0.80)], [Entry("em", 0.79)]];
    assert StrictlyBelow(history[1], history[0]) by {
      assert Lookup(history[1], "em") == Some(0.79);
      assert HasKey(history[1], history[0][0].name) by {
        assert history[1][0].name == "em";
      }
    }
    FirstRecordRetained(history);
  }
}
