/** The hybrid filter controller of lib/DeepBloom.py: a trained scorer answers first, and a Bloom
    filter holding the positives the scorer rejects answers for the rest. */
module DeepBloomFilter {
  import opened Wrappers
  import opened Sequences
  import opened Calibration
  import opened Backstop

  /** A trained model's `predict`: deterministic, from an item to its score. */
  type Scorer = string -> real

  /** A model's `fit`: from the training items and their 0/1 labels to the trained scorer. */
  type Trainer = (seq<string>, seq<int>) -> Scorer

  datatype Dataset = Dataset(positives: seq<string>, negatives: seq<string>)

  /** What `split_negatives` returns: two slices drawn from the negatives without reuse. */
  ghost predicate IsSplit(negatives: seq<string>, s1: seq<string>, s2: seq<string>)
  {
    multiset(s1) + multiset(s2) <= multiset(negatives)
  }

  function Labelled(items: seq<string>, target: int): (r: seq<(string, int)>)
    ensures |r| == |items|
  {
    seq(|items|, i requires 0 <= i < |items| => (items[i], target))
  }

  function Zip(xs: seq<string>, ys: seq<int>): seq<(string, int)>
    requires |xs| == |ys|
  {
    seq(|xs|, i requires 0 <= i < |xs| => (xs[i], ys[i]))
  }

  /** What `shuffle_for_training(s1, positives)` returns: items and labels of equal length, a
      permutation of the s1 items labelled 0 and the positives labelled 1. */
  ghost predicate IsTrainingShuffle(s1: seq<string>, positives: seq<string>, items: seq<string>, labels: seq<int>)
  {
    |items| == |labels| &&
    multiset(Zip(items, labels)) == multiset(Labelled(s1, 0) + Labelled(positives, 1))
  }

  /** `[model.predict(item) for item in s2]`. */
  function Predictions(predict: Scorer, s2: seq<string>): (r: seq<real>)
    ensures |r| == |s2|
  {
    MapSeq(s2, predict)
  }

  /** The test `predict(p) <= threshold` that makes a positive a false negative. */
  function AtOrBelow(predict: Scorer, threshold: real): string -> bool
  {
    x => predict(x) <= threshold
  }

  /** The false negatives `create_bloom_filter` collects, in the order of the positives. */
  function FalseNegatives(positives: seq<string>, predict: Scorer, threshold: real): (r: seq<string>)
    ensures forall x :: x in r <==> x in positives && predict(x) <= threshold
  {
    FilterMembershipAll(positives, AtOrBelow(predict, threshold));
    Filter(positives, AtOrBelow(predict, threshold))
  }

  /** Every occurrence of a positive scoring at or below the threshold is kept, and nothing else. */
  lemma FalseNegativesExact(positives: seq<string>, predict: Scorer, threshold: real, x: string)
    ensures multiset(FalseNegatives(positives, predict, threshold))[x] ==
      if predict(x) <= threshold then multiset(positives)[x] else 0
    ensures x in FalseNegatives(positives, predict, threshold) <==> x in positives && predict(x) <= threshold
  {
    FilterCount(positives, AtOrBelow(predict, threshold), x);
    FilterMembership(positives, AtOrBelow(predict, threshold), x);
  }

  /** Every positive either scores above the threshold or is a false negative. */
  lemma NoFalseNegatives(positives: seq<string>, predict: Scorer, threshold: real, x: string)
    ensures x in positives ==> predict(x) > threshold || x in ToSet(FalseNegatives(positives, predict, threshold))
  {
    FalseNegativesExact(positives, predict, threshold, x);
  }

  class DeepBloom {
    const model: Trainer
    const fpRate: real
    /** The hashing of the backstop filter (`string_digest`), seen only through its collisions. */
    const digest: Collision
    /** The model's `predict` once `fit` has trained it. */
    var predict: Option<Scorer>
    var threshold: Option<real>
    var bloomFilter: BloomFilter?
    /** The positives the backstop was built from. */
    ghost var positives: seq<string>

    /** The built state: trained, calibrated, and the backstop holds exactly the false negatives. */
    ghost predicate Valid()
      reads this, bloomFilter
    {
      predict.Some? && threshold.Some? && bloomFilter != null &&
      bloomFilter.added == ToSet(FalseNegatives(positives, predict.value, threshold.value))
    }

    /** `DeepBloom(model, data, fp_rate)`. `split` and `shuffled` are what `split_negatives(data)`
        and `shuffle_for_training(s1, data.positives)` returned. When `predictions[fp_index]` is out of
        range the IndexError leaves no backstop and no threshold. */
    constructor (model: Trainer, data: Dataset, fpRate: real, digest: Collision,
                 split: (seq<string>, seq<string>), shuffled: (seq<string>, seq<int>))
      requires IsSplit(data.negatives, split.0, split.1)
      requires IsTrainingShuffle(split.0, data.positives, shuffled.0, shuffled.1)
      ensures this.model == model && this.fpRate == fpRate && this.digest == digest
      ensures predict == Some(model(shuffled.0, shuffled.1))
      ensures threshold == Threshold(Predictions(predict.value, split.1), fpRate)
      ensures threshold.None? ==> bloomFilter == null
      ensures threshold.Some? ==>
        && Valid() && fresh(bloomFilter) && positives == data.positives
        && bloomFilter.capacity == |FalseNegatives(data.positives, predict.value, threshold.value)|
        && bloomFilter.rate == fpRate / 2.0 && bloomFilter.collision == digest
    {
      this.model := model;
      threshold := None;
      this.fpRate := fpRate;
      this.digest := digest;
      predict := None;
      bloomFilter := null;
      positives := [];
      new;
      var ok := Fit(split, shuffled);
      if ok {
        CreateBloomFilter(data);
      }
    }

    /** `fit`: trains the model on the shuffled training set, then picks the threshold from the
        sorted calibration scores; `ok` is false when the indexing raises IndexError. */
    method Fit(split: (seq<string>, seq<string>), shuffled: (seq<string>, seq<int>)) returns (ok: bool)
      modifies this
      ensures predict == Some(model(shuffled.0, shuffled.1))
      ensures ok == Threshold(Predictions(predict.value, split.1), fpRate).Some?
      ensures threshold == if ok then Threshold(Predictions(predict.value, split.1), fpRate) else old(threshold)
      ensures bloomFilter == old(bloomFilter) && positives == old(positives)
    {
      var (s1, s2) := split;
      predict := Some(model(shuffled.0, shuffled.1));
      var fpIndex := FpIndex(|s2|, fpRate);
      var predictions := Predictions(predict.value, s2);
      predictions := Sort(predictions);
      var t := PyIndex(predictions, fpIndex);
      ok := t.Some?;
      if ok {
        threshold := t;
      }
    }

    /** `create_bloom_filter`: collects the false negatives, creates the backstop for that many
        items at half the target rate, and adds every false negative to it. */
    method CreateBloomFilter(data: Dataset)
      requires predict.Some? && threshold.Some?
      modifies this
      ensures predict == old(predict) && threshold == old(threshold)
      ensures positives == data.positives
      ensures fresh(bloomFilter) && Valid()
      ensures bloomFilter.capacity == |FalseNegatives(data.positives, predict.value, threshold.value)|
      ensures bloomFilter.rate == fpRate / 2.0 && bloomFilter.collision == digest
    {
      var p, t := predict.value, threshold.value;
      var falseNegatives: seq<string> := [];
      for i := 0 to |data.positives|
        invariant predict == old(predict) && threshold == old(threshold)
        invariant falseNegatives == FalseNegatives(data.positives[..i], p, t)
      {
        var positive := data.positives[i];
        assert data.positives[..i + 1] == data.positives[..i] + [positive];
        FilterSnoc(data.positives[..i], positive, AtOrBelow(p, t));
        if p(positive) <= t {
          falseNegatives := falseNegatives + [positive];
        }
      }
      assert data.positives[..|data.positives|] == data.positives;

      var filter := new BloomFilter(|falseNegatives|, fpRate / 2.0, digest);
      bloomFilter := filter;
      for i := 0 to |falseNegatives|
        invariant bloomFilter == filter && predict == old(predict) && threshold == old(threshold)
        invariant filter.added == ToSet(falseNegatives[..i])
      {
        assert falseNegatives[..i + 1] == falseNegatives[..i] + [falseNegatives[i]];
        filter.Add(falseNegatives[i]);
      }
      assert falseNegatives[..|falseNegatives|] == falseNegatives;
      positives := data.positives;
    }

    /** `check`: accepted outright when the score is above the threshold, otherwise whatever the
        backstop says. No positive of the dataset the filter was built from is ever rejected. */
    function Check(item: string): (r: bool)
      reads this, bloomFilter
      requires Valid()
      ensures item in positives ==> r
      ensures predict.value(item) > threshold.value ==> r
      ensures predict.value(item) <= threshold.value ==> r == bloomFilter.Check(item)
    {
      if predict.value(item) > threshold.value then true
      else
        NoFalseNegatives(positives, predict.value, threshold.value, item);
        bloomFilter.Check(item)
    }
  }
}
