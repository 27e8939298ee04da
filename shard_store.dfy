/**
 * The rank-keyed result store of the distributed evaluation round.
 *
 * Every worker publishes the pair (predictions, scores) of its shard under the key
 * `str(rank)`; after the barrier every worker reads the keys of ranks 0 .. world_size - 1
 * in ascending order and concatenates what it finds. Serialisation is the identity here,
 * so a stored value is the pair itself.
 */
module ShardStore {
  import opened Wrappers

  /** One generated output sequence: its token ids. */
  type Tokens = seq<int>

  /** The pair one worker publishes: one prediction per example of its shard, and the scores it kept. */
  datatype Shard = Shard(predictions: seq<Tokens>, scores: seq<real>)

  /** The merged evaluation input; an empty merged score list is turned into `None`. */
  datatype Merged = Merged(predictions: seq<Tokens>, scores: Option<seq<real>>)

  /** Reading a rank whose key is absent: the stored value is nil and cannot be decoded. */
  datatype CollectError = MissingShard(rank: nat)

  /** The contents of the key-value store. */
  type Store = map<string, Shard>

  // ---------------------------------------------------------------------------
  // Keys: the decimal spelling of a rank
  // ---------------------------------------------------------------------------

  function Digit(d: nat): char
    requires d < 10
  {
    ('0' as int + d) as char
  }

  /** The store key of a rank: its decimal string, as `f"{rank}"` writes it. */
  function RankKey(rank: nat): string
  {
    if rank < 10 then [Digit(rank)] else RankKey(rank / 10) + [Digit(rank % 10)]
  }

  /** A key is a non-empty string of decimal digits without a leading zero. */
  lemma {:induction false} RankKeyIsDecimal(rank: nat)
    ensures |RankKey(rank)| >= 1
    ensures forall i :: 0 <= i < |RankKey(rank)| ==> '0' <= RankKey(rank)[i] <= '9'
    ensures |RankKey(rank)| > 1 ==> RankKey(rank)[0] != '0'
  {
    if rank >= 10 {
      RankKeyIsDecimal(rank / 10);
    }
  }

  /** The number a string of decimal digits denotes. */
  ghost function DecimalValue(s: string): int
  {
    if |s| == 0 then 0 else DecimalValue(s[..|s| - 1]) * 10 + (s[|s| - 1] as int - '0' as int)
  }

  lemma {:induction false} DecimalValueOfRankKey(rank: nat)
    ensures DecimalValue(RankKey(rank)) == rank
  {
    if rank >= 10 {
      var key := RankKey(rank);
      assert key[..|key| - 1] == RankKey(rank / 10);
      DecimalValueOfRankKey(rank / 10);
    }
  }

  /** Distinct ranks have distinct keys, so one rank's publish never overwrites another rank's slot. */
  lemma RankKeyInjective(a: nat, b: nat)
    ensures RankKey(a) == RankKey(b) <==> a == b
  {
    DecimalValueOfRankKey(a);
    DecimalValueOfRankKey(b);
  }

  // ---------------------------------------------------------------------------
  // Publishing
  // ---------------------------------------------------------------------------

  /** `r.set(str(rank), pair)`: the rank's slot now holds the pair, and every other rank's slot is as it was. */
  lemma PublishOverwritesOnlyOwnSlot(store: Store, rank: nat, shard: Shard, other: nat)
    ensures store[RankKey(rank) := shard][RankKey(rank)] == shard
    ensures other != rank ==>
      (RankKey(other) in store[RankKey(rank) := shard] <==> RankKey(other) in store)
    ensures other != rank && RankKey(other) in store ==>
      store[RankKey(rank) := shard][RankKey(other)] == store[RankKey(other)]
  {
    RankKeyInjective(rank, other);
  }

  /** The store after the workers in `order` have published, one after the other; rank `r` publishes `shards[r]`. */
  function PublishAll(store: Store, order: seq<nat>, shards: seq<Shard>): Store
    requires forall k :: 0 <= k < |order| ==> order[k] < |shards|
  {
    if |order| == 0 then store
    else
      var rank := order[|order| - 1];
      PublishAll(store, order[..|order| - 1], shards)[RankKey(rank) := shards[rank]]
  }

  /** Whatever the interleaving before the barrier, every rank that published finds its own pair in its slot. */
  lemma {:induction false} PublishAllLookup(store: Store, order: seq<nat>, shards: seq<Shard>, rank: nat)
    requires forall k :: 0 <= k < |order| ==> order[k] < |shards|
    requires rank in order
    ensures RankKey(rank) in PublishAll(store, order, shards)
    ensures PublishAll(store, order, shards)[RankKey(rank)] == shards[rank]
  {
    var last := order[|order| - 1];
    RankKeyInjective(rank, last);
    if rank != last {
      assert rank in order[..|order| - 1] by {
        var k :| 0 <= k < |order| && order[k] == rank;
        assert k < |order| - 1;
        assert order[..|order| - 1][k] == rank;
      }
      PublishAllLookup(store, order[..|order| - 1], shards, rank);
    }
  }

  // ---------------------------------------------------------------------------
  // Reference definition of the merged result
  // ---------------------------------------------------------------------------

  /** The concatenation of a list of lists. */
  function Flatten<T>(xss: seq<seq<T>>): seq<T>
  {
    if |xss| == 0 then [] else xss[0] + Flatten(xss[1..])
  }

  /** The sum of the lengths of a list of lists. */
  function TotalLength<T>(xss: seq<seq<T>>): nat
  {
    if |xss| == 0 then 0 else |xss[0]| + TotalLength(xss[1..])
  }

  lemma {:induction false} FlattenLength<T>(xss: seq<seq<T>>)
    ensures |Flatten(xss)| == TotalLength(xss)
  {
    if |xss| > 0 {
      FlattenLength(xss[1..]);
    }
  }

  lemma {:induction false} FlattenAppend<T>(xss: seq<seq<T>>, xs: seq<T>)
    ensures Flatten(xss + [xs]) == Flatten(xss) + xs
  {
    if |xss| == 0 {
      assert xss + [xs] == [xs];
      assert Flatten([xs][1..]) == [];
    } else {
      assert (xss + [xs])[1..] == xss[1..] + [xs];
      FlattenAppend(xss[1..], xs);
    }
  }

  lemma {:induction false} TotalLengthAppend<T>(xss: seq<seq<T>>, xs: seq<T>)
    ensures TotalLength(xss + [xs]) == TotalLength(xss) + |xs|
  {
    if |xss| == 0 {
      assert xss + [xs] == [xs];
    } else {
      assert (xss + [xs])[1..] == xss[1..] + [xs];
      TotalLengthAppend(xss[1..], xs);
    }
  }

  /** Element `p` of list `i` sits in the concatenation at the total length of the lists before it, plus `p`. */
  lemma {:induction false} FlattenAt<T>(xss: seq<seq<T>>, i: nat, p: nat)
    requires i < |xss| && p < |xss[i]|
    ensures TotalLength(xss[..i]) + p < |Flatten(xss)|
    ensures Flatten(xss)[TotalLength(xss[..i]) + p] == xss[i][p]
  {
    FlattenLength(xss);
    if i == 0 {
      assert xss[..0] == [];
    } else {
      assert xss[1..][..i - 1] == xss[..i][1..];
      FlattenAt(xss[1..], i - 1, p);
    }
  }

  lemma {:induction false} TotalLengthZero<T>(xss: seq<seq<T>>)
    ensures TotalLength(xss) == 0 <==> forall i :: 0 <= i < |xss| ==> |xss[i]| == 0
  {
    if |xss| > 0 {
      TotalLengthZero(xss[1..]);
      assert forall i :: 1 <= i < |xss| ==> xss[i] == xss[1..][i - 1];
    }
  }

  function PredictionLists(shards: seq<Shard>): (r: seq<seq<Tokens>>)
    ensures |r| == |shards| && forall i :: 0 <= i < |shards| ==> r[i] == shards[i].predictions
  {
    seq(|shards|, i requires 0 <= i < |shards| => shards[i].predictions)
  }

  function ScoreLists(shards: seq<Shard>): (r: seq<seq<real>>)
    ensures |r| == |shards| && forall i :: 0 <= i < |shards| ==> r[i] == shards[i].scores
  {
    seq(|shards|, i requires 0 <= i < |shards| => shards[i].scores)
  }

  /** The shards' pairs joined in list order: predictions with predictions, scores with scores. */
  function ConcatAll(shards: seq<Shard>): Shard
  {
    Shard(Flatten(PredictionLists(shards)), Flatten(ScoreLists(shards)))
  }

  // ---------------------------------------------------------------------------
  // Collecting
  // ---------------------------------------------------------------------------

  /**
   * The collect loop over ranks 0 .. n - 1: each rank's stored pair is appended in ascending
   * rank order, and the first rank whose key is absent stops the loop.
   */
  function Gather(store: Store, n: nat): Result<Shard, CollectError>
  {
    if n == 0 then Success(Shard([], []))
    else
      match Gather(store, n - 1)
      case Failure(e) => Failure(e)
      case Success(acc) =>
        if RankKey(n - 1) in store then
          var pair := store[RankKey(n - 1)];
          Success(Shard(acc.predictions + pair.predictions, acc.scores + pair.scores))
        else
          Failure(MissingShard(n - 1))
  }

  /** Every rank below `n` has a value under its key. */
  predicate AllPublished(store: Store, n: nat)
  {
    forall i :: 0 <= i < n ==> RankKey(i) in store
  }

  /**
   * Collect succeeds iff every rank below `n` has published; otherwise it reports the lowest
   * rank whose key is absent.
   */
  lemma {:induction false} GatherOutcome(store: Store, n: nat)
    ensures Gather(store, n).Success? <==> AllPublished(store, n)
    ensures Gather(store, n).Failure? ==>
      var missing := Gather(store, n).error.rank;
      && missing < n && RankKey(missing) !in store
      && AllPublished(store, missing)
  {
    if n > 0 {
      GatherOutcome(store, n - 1);
      var prev := Gather(store, n - 1);
      if prev.Failure? {
        assert Gather(store, n) == prev;
        assert !AllPublished(store, n) by {
          assert prev.error.rank < n && RankKey(prev.error.rank) !in store;
        }
      } else if RankKey(n - 1) !in store {
        assert Gather(store, n) == Failure(MissingShard(n - 1));
        assert !AllPublished(store, n);
      } else {
        assert Gather(store, n).Success?;
        assert AllPublished(store, n) by {
          forall i | 0 <= i < n ensures RankKey(i) in store {
            if i < n - 1 {
              assert AllPublished(store, n - 1);
            }
          }
        }
      }
    }
  }

  /** Once a rank's key is missing, collecting over more ranks fails at that same rank. */
  lemma {:induction false} GatherFailurePersists(store: Store, n: nat, m: nat)
    requires n <= m && Gather(store, n).Failure?
    ensures Gather(store, m) == Gather(store, n)
  {
    if n < m {
      GatherFailurePersists(store, n, m - 1);
    }
  }

  /** An empty merged score list becomes `None`; a non-empty one is kept as it is. */
  function Finalize(s: Shard): Merged
  {
    Merged(s.predictions, if |s.scores| == 0 then None else Some(s.scores))
  }

  /** The whole read side of the round: gather ranks 0 .. n - 1, then finalize the scores. */
  function Merge(store: Store, n: nat): Result<Merged, CollectError>
  {
    match Gather(store, n)
    case Failure(e) => Failure(e)
    case Success(s) => Success(Finalize(s))
  }

  /** When slot `i` holds `shards[i]` for every rank, collect yields the shards concatenated in rank order. */
  lemma {:induction false} GatherIsConcat(store: Store, shards: seq<Shard>)
    requires forall i :: 0 <= i < |shards| ==> RankKey(i) in store && store[RankKey(i)] == shards[i]
    ensures Gather(store, |shards|) == Success(ConcatAll(shards))
  {
    var n := |shards|;
    if n > 0 {
      var front := shards[..n - 1];
      GatherIsConcat(store, front);
      var pair := store[RankKey(n - 1)];
      assert pair == shards[n - 1];
      assert Gather(store, n) == Success(Shard(ConcatAll(front).predictions + pair.predictions,
                                               ConcatAll(front).scores + pair.scores));
      assert PredictionLists(shards) == PredictionLists(front) + [shards[n - 1].predictions];
      assert ScoreLists(shards) == ScoreLists(front) + [shards[n - 1].scores];
      FlattenAppend(PredictionLists(front), shards[n - 1].predictions);
      FlattenAppend(ScoreLists(front), shards[n - 1].scores);
    }
  }

  /**
   * Length and order of the merged predictions: their number is the sum of the shard sizes, and
   * prediction `p` of rank `i` sits after every prediction of the ranks below `i`.
   */
  lemma ConcatAllOrder(shards: seq<Shard>, i: nat, p: nat)
    requires i < |shards| && p < |shards[i].predictions|
    ensures |ConcatAll(shards).predictions| == TotalLength(PredictionLists(shards))
    ensures TotalLength(PredictionLists(shards[..i])) + p < |ConcatAll(shards).predictions|
    ensures ConcatAll(shards).predictions[TotalLength(PredictionLists(shards[..i])) + p] == shards[i].predictions[p]
  {
    FlattenLength(PredictionLists(shards));
    assert PredictionLists(shards)[..i] == PredictionLists(shards[..i]);
    FlattenAt(PredictionLists(shards), i, p);
  }

  /** The same order for the merged scores. */
  lemma ConcatAllScoreOrder(shards: seq<Shard>, i: nat, p: nat)
    requires i < |shards| && p < |shards[i].scores|
    ensures |ConcatAll(shards).scores| == TotalLength(ScoreLists(shards))
    ensures TotalLength(ScoreLists(shards[..i])) + p < |ConcatAll(shards).scores|
    ensures ConcatAll(shards).scores[TotalLength(ScoreLists(shards[..i])) + p] == shards[i].scores[p]
  {
    FlattenLength(ScoreLists(shards));
    assert ScoreLists(shards)[..i] == ScoreLists(shards[..i]);
    FlattenAt(ScoreLists(shards), i, p);
  }

  /** The merged scores are `None` exactly when every rank published an empty score list. */
  lemma MergedScoresNoneIff(shards: seq<Shard>)
    ensures Finalize(ConcatAll(shards)).scores.None? <==> forall i :: 0 <= i < |shards| ==> |shards[i].scores| == 0
    ensures Finalize(ConcatAll(shards)).scores.Some? ==> Finalize(ConcatAll(shards)).scores.value == ConcatAll(shards).scores
  {
    FlattenLength(ScoreLists(shards));
    TotalLengthZero(ScoreLists(shards));
  }

  /**
   * A full round: whatever order the ranks 0 .. n - 1 publish in before the barrier, collect
   * afterwards yields their pairs concatenated in ascending rank order.
   */
  lemma RoundMergesInRankOrder(store: Store, order: seq<nat>, shards: seq<Shard>)
    requires forall k :: 0 <= k < |order| ==> order[k] < |shards|
    requires forall i :: 0 <= i < |shards| ==> i in order
    ensures Merge(PublishAll(store, order, shards), |shards|) == Success(Finalize(ConcatAll(shards)))
  {
    var after := PublishAll(store, order, shards);
    forall i | 0 <= i < |shards|
      ensures RankKey(i) in after && after[RankKey(i)] == shards[i]
    {
      PublishAllLookup(store, order, shards, i);
    }
    GatherIsConcat(after, shards);
  }

  /** With a single worker, collect returns exactly the pair that worker just published. */
  lemma SingleWorkerCollectsOwnPair(store: Store, shard: Shard)
    ensures Merge(store[RankKey(0) := shard], 1)
         == Success(Merged(shard.predictions, if |shard.scores| == 0 then None else Some(shard.scores)))
  {
    var after := store[RankKey(0) := shard];
    GatherIsConcat(after, [shard]);
    assert PredictionLists([shard]) == [shard.predictions];
    assert ScoreLists([shard]) == [shard.scores];
    assert Flatten([shard.predictions]) == shard.predictions by {
      assert Flatten([shard.predictions][1..]) == [];
    }
    assert Flatten([shard.scores]) == shard.scores by {
      assert Flatten([shard.scores][1..]) == [];
    }
    assert ConcatAll([shard]) == shard;
  }

  /**
   * Two workers: rank 0 holds predictions a, b and rank 1 holds c, neither with scores. Rank 1
   * happens to publish first; collect still yields a, b, c and no scores.
   */
  lemma TwoWorkerRound(store: Store, a: Tokens, b: Tokens, c: Tokens)
    ensures Merge(PublishAll(store, [1, 0], [Shard([a, b], []), Shard([c], [])]), 2)
         == Success(Merged([a, b, c], None))
  {
    var shards := [Shard([a, b], []), Shard([c], [])];
    RoundMergesInRankOrder(store, [1, 0], shards);
    assert PredictionLists(shards) == [[a, b], [c]];
    assert ScoreLists(shards) == [[], []];
    var preds: seq<seq<Tokens>> := [[a, b], [c]];
    assert Flatten(preds) == [a, b, c] by {
      assert preds[1..][1..] == [];
      assert Flatten(preds[1..]) == [c];
    }
    var none: seq<seq<real>> := [[], []];
    assert Flatten(none) == [] by {
      assert none[1..][1..] == [];
    }
  }

  /** The key-value store client; its contents change in place with each `set`. */
  class KeyValueStore {
    var entries: Store

    constructor (initial: Store)
      ensures entries == initial
    {
      entries := initial;
    }

    /** `set(key, value)`: overwrite whatever the key held before. */
    method Set(key: string, value: Shard)
      modifies this
      ensures entries == old(entries)[key := value]
    {
      entries := entries[key := value];
    }
  }
}
