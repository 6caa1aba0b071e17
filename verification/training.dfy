/** The training-side label alignment: `tokenize_and_align_labels`, which
    spreads word-level tags over the sub-word positions the tokenizer made,
    and the filtering and counting inside `compute_metrics`, which drops the
    ignored positions before comparing predicted ids with true ones. */
module Training {
  import opened Wrappers

  /** The label id the loss function skips. */
  const Ignored: int := -100

  /** `label_all_tokens` when the caller does not pass it. */
  const DefaultLabelAllTokens: bool := true

  /** Every word id names a tag of the sentence; `label[word_idx]` raises
      `IndexError` otherwise. */
  predicate WordIdsInRange(wordIds: seq<Option<nat>>, tags: seq<int>)
  {
    forall k :: 0 <= k < |wordIds| && wordIds[k].Some? ==> wordIds[k].value < |tags|
  }

  /** Position `k` opens a run of positions of one word: it has a word id
      and the position before it has another id, or none, or there is no
      position before it. */
  predicate StartsWord(wordIds: seq<Option<nat>>, k: nat)
    requires k < |wordIds|
  {
    wordIds[k].Some? && (k == 0 || wordIds[k - 1] != wordIds[k])
  }

  /** The label position `k` should carry, read off the positions alone: the
      ignored id where there is no word, the word's tag where a word starts,
      and on a later piece of the same word the tag or the ignored id as
      `labelAllTokens` says. */
  function AlignedLabel(wordIds: seq<Option<nat>>, tags: seq<int>, labelAllTokens: bool, k: nat): int
    requires k < |wordIds| && WordIdsInRange(wordIds, tags)
  {
    match wordIds[k]
    case None => Ignored
    case Some(w) => if StartsWord(wordIds, k) || labelAllTokens then tags[w] else Ignored
  }

  /** The loop over `word_ids` for one sentence, carrying the previous word
      id from step to step. */
  method AlignLabels(wordIds: seq<Option<nat>>, tags: seq<int>, labelAllTokens: bool) returns (labelIds: seq<int>)
    requires WordIdsInRange(wordIds, tags)
    ensures |labelIds| == |wordIds|
    ensures forall k :: 0 <= k < |wordIds| ==> labelIds[k] == AlignedLabel(wordIds, tags, labelAllTokens, k)
  {
    labelIds := [];
    var previous: Option<nat> := None;
    var i := 0;
    while i < |wordIds|
      invariant 0 <= i <= |wordIds|
      invariant |labelIds| == i
      invariant previous == if i == 0 then None else wordIds[i - 1]
      invariant forall k :: 0 <= k < i ==> labelIds[k] == AlignedLabel(wordIds, tags, labelAllTokens, k)
    {
      var wordIdx := wordIds[i];
      var next: int;
      if wordIdx.None? {
        next := Ignored;
      } else if wordIdx != previous {
        next := tags[wordIdx.value];
      } else {
        next := if labelAllTokens then tags[wordIdx.value] else Ignored;
      }
      labelIds := labelIds + [next];
      previous := wordIdx;
      i := i + 1;
    }
  }

  /** The outer loop: one aligned label list per sentence of the batch. */
  method AlignBatch(batchWordIds: seq<seq<Option<nat>>>, nerTags: seq<seq<int>>, labelAllTokens: bool)
    returns (labels: seq<seq<int>>)
    requires |nerTags| <= |batchWordIds|
    requires forall i :: 0 <= i < |nerTags| ==> WordIdsInRange(batchWordIds[i], nerTags[i])
    ensures |labels| == |nerTags|
    ensures forall i :: 0 <= i < |labels| ==> |labels[i]| == |batchWordIds[i]|
    ensures forall i, k :: 0 <= i < |labels| && 0 <= k < |labels[i]| ==>
              labels[i][k] == AlignedLabel(batchWordIds[i], nerTags[i], labelAllTokens, k)
  {
    labels := [];
    var i := 0;
    while i < |nerTags|
      invariant 0 <= i <= |nerTags|
      invariant |labels| == i
      invariant forall j :: 0 <= j < i ==> |labels[j]| == |batchWordIds[j]|
      invariant forall j, k :: 0 <= j < i && 0 <= k < |labels[j]| ==>
                  labels[j][k] == AlignedLabel(batchWordIds[j], nerTags[j], labelAllTokens, k)
    {
      var labelIds := AlignLabels(batchWordIds[i], nerTags[i], labelAllTokens);
      labels := labels + [labelIds];
      i := i + 1;
    }
  }

  /** A tag list that never uses the ignored id itself. */
  predicate NoIgnoredTag(tags: seq<int>)
  {
    forall k :: 0 <= k < |tags| ==> tags[k] != Ignored
  }

  /** A label that is not the ignored id is always the tag of the word at
      that position. */
  lemma AlignedLabelIsWordTag(wordIds: seq<Option<nat>>, tags: seq<int>, labelAllTokens: bool, k: nat)
    requires k < |wordIds| && WordIdsInRange(wordIds, tags)
    ensures AlignedLabel(wordIds, tags, labelAllTokens, k) != Ignored
      ==> wordIds[k].Some? && AlignedLabel(wordIds, tags, labelAllTokens, k) == tags[wordIds[k].value]
    ensures wordIds[k].None? ==> AlignedLabel(wordIds, tags, labelAllTokens, k) == Ignored
  {
  }

  /** With `label_all_tokens` set, as by default, exactly the positions
      without a word are ignored. */
  lemma LabelAllTokensIgnoresOnlySpecial(wordIds: seq<Option<nat>>, tags: seq<int>, k: nat)
    requires k < |wordIds| && WordIdsInRange(wordIds, tags) && NoIgnoredTag(tags)
    ensures AlignedLabel(wordIds, tags, DefaultLabelAllTokens, k) == Ignored <==> wordIds[k].None?
  {
  }

  /** With `label_all_tokens` unset, exactly the first piece of each run of
      one word is labelled. */
  lemma FirstPieceOnlyLabelsWordStarts(wordIds: seq<Option<nat>>, tags: seq<int>, k: nat)
    requires k < |wordIds| && WordIdsInRange(wordIds, tags) && NoIgnoredTag(tags)
    ensures AlignedLabel(wordIds, tags, false, k) != Ignored <==> StartsWord(wordIds, k)
  {
  }

  /** The tokenizer puts the pieces of one word next to each other: a word
      id seen earlier is repeated by the position just before. */
  predicate Contiguous(wordIds: seq<Option<nat>>)
  {
    forall j, k :: 0 <= j < k < |wordIds| && wordIds[j].Some? && wordIds[j] == wordIds[k]
      ==> wordIds[k - 1] == wordIds[k]
  }

  /** With `label_all_tokens` unset and the pieces of each word contiguous,
      no word is labelled at two positions. */
  lemma FirstPieceOnlyLabelsEachWordOnce(wordIds: seq<Option<nat>>, tags: seq<int>, j: nat, k: nat)
    requires j < k < |wordIds| && WordIdsInRange(wordIds, tags) && Contiguous(wordIds)
    requires AlignedLabel(wordIds, tags, false, j) != Ignored && AlignedLabel(wordIds, tags, false, k) != Ignored
    ensures wordIds[j] != wordIds[k]
  {
  }

  /** How many pairs `zip` yields: it stops at the shorter list. */
  function ZipLength(xs: seq<int>, ys: seq<int>): nat
  {
    if |xs| < |ys| then |xs| else |ys|
  }

  /** The positions below `n` whose label is not ignored, in increasing
      order, every one of them listed. */
  function KeptPositions(gold: seq<int>, n: nat): (r: seq<nat>)
    requires n <= |gold|
    ensures forall i :: 0 <= i < |r| ==> r[i] < n && gold[r[i]] != Ignored
    ensures forall i, j :: 0 <= i < j < |r| ==> r[i] < r[j]
    ensures forall k :: 0 <= k < n && gold[k] != Ignored ==> k in r
  {
    if n == 0 then []
    else KeptPositions(gold, n - 1) + (if gold[n - 1] != Ignored then [n - 1] else [])
  }

  /** The values at the first `n` positions whose label is not ignored: the
      list comprehension `[v for (v, l) in zip(values, label) if l != -100]`
      over the first `n` pairs. */
  function Kept(values: seq<int>, gold: seq<int>, n: nat): seq<int>
    requires n <= |values| && n <= |gold|
  {
    if n == 0 then []
    else Kept(values, gold, n - 1) + (if gold[n - 1] != Ignored then [values[n - 1]] else [])
  }

  /** `true_predictions` for one sentence. */
  function ScoredPredictions(prediction: seq<int>, gold: seq<int>): seq<int>
  {
    Kept(prediction, gold, ZipLength(prediction, gold))
  }

  /** `true_labels` for one sentence. */
  function ScoredLabels(prediction: seq<int>, gold: seq<int>): seq<int>
  {
    Kept(gold, gold, ZipLength(prediction, gold))
  }

  /** What is kept is read at the kept positions, in order. */
  lemma {:induction false} KeptAtPositions(values: seq<int>, gold: seq<int>, n: nat)
    requires n <= |values| && n <= |gold|
    ensures var ks := KeptPositions(gold, n); var r := Kept(values, gold, n);
      |r| == |ks| && forall i :: 0 <= i < |r| ==> r[i] == values[ks[i]]
  {
    if n > 0 {
      KeptAtPositions(values, gold, n - 1);
      var ks' := KeptPositions(gold, n - 1);
      var r' := Kept(values, gold, n - 1);
      if gold[n - 1] != Ignored {
        var ks := ks' + [n - 1];
        var r := r' + [values[n - 1]];
        assert KeptPositions(gold, n) == ks && Kept(values, gold, n) == r;
        forall i | 0 <= i < |r|
          ensures r[i] == values[ks[i]]
        {
          if i < |r'| {
            assert r[i] == r'[i] && ks[i] == ks'[i];
          }
        }
      } else {
        assert KeptPositions(gold, n) == ks' + [] == ks';
        assert Kept(values, gold, n) == r' + [] == r';
      }
    }
  }

  /** The two filtered lists of a sentence pair up: equally long, the i-th
      prediction and the i-th label taken from the same position, and no
      ignored id among the labels. */
  lemma ScoredListsAligned(prediction: seq<int>, gold: seq<int>)
    ensures var ks := KeptPositions(gold, ZipLength(prediction, gold));
      var ps := ScoredPredictions(prediction, gold);
      var ls := ScoredLabels(prediction, gold);
      && |ps| == |ks| && |ls| == |ks|
      && (forall i :: 0 <= i < |ks| ==> ps[i] == prediction[ks[i]] && ls[i] == gold[ks[i]])
      && (forall i :: 0 <= i < |ls| ==> ls[i] != Ignored)
  {
    var n := ZipLength(prediction, gold);
    KeptAtPositions(prediction, gold, n);
    KeptAtPositions(gold, gold, n);
  }

  /** How many of the first `n` labels are not ignored. */
  function CountKept(gold: seq<int>, n: nat): nat
    requires n <= |gold|
  {
    if n == 0 then 0 else CountKept(gold, n - 1) + (if gold[n - 1] != Ignored then 1 else 0)
  }

  lemma {:induction false} KeptLength(values: seq<int>, gold: seq<int>, n: nat)
    requires n <= |values| && n <= |gold|
    ensures |Kept(values, gold, n)| == CountKept(gold, n)
  {
    if n > 0 {
      KeptLength(values, gold, n - 1);
    }
  }

  /** `sum(p == l for p, l in zip(pred, gold))`. */
  function MatchCount(xs: seq<int>, ys: seq<int>): (r: nat)
    ensures r <= ZipLength(xs, ys)
    decreases |xs|
  {
    if |xs| == 0 || |ys| == 0 then 0
    else (if xs[0] == ys[0] then 1 else 0) + MatchCount(xs[1..], ys[1..])
  }

  /** Every pair matches exactly when the count reaches the number of pairs. */
  lemma {:induction false} MatchCountFullIff(xs: seq<int>, ys: seq<int>)
    ensures MatchCount(xs, ys) == ZipLength(xs, ys)
      <==> forall k :: 0 <= k < ZipLength(xs, ys) ==> xs[k] == ys[k]
    decreases |xs|
  {
    if |xs| > 0 && |ys| > 0 {
      MatchCountFullIff(xs[1..], ys[1..]);
      if forall k :: 0 <= k < ZipLength(xs[1..], ys[1..]) ==> xs[1..][k] == ys[1..][k] {
        if xs[0] == ys[0] {
          forall k | 0 <= k < ZipLength(xs, ys)
            ensures xs[k] == ys[k]
          {
            if k > 0 {
              assert xs[1..][k - 1] == ys[1..][k - 1];
            }
          }
        }
      } else {
        var k :| 0 <= k < ZipLength(xs[1..], ys[1..]) && xs[1..][k] != ys[1..][k];
        assert xs[k + 1] != ys[k + 1];
      }
    }
  }

  /** `correct`: matches summed over the sentence pairs `zip` yields. */
  function Correct(predictions: seq<seq<int>>, labels: seq<seq<int>>): (r: nat)
    decreases |predictions|
  {
    if |predictions| == 0 || |labels| == 0 then 0
    else
      var matches := MatchCount(ScoredPredictions(predictions[0], labels[0]), ScoredLabels(predictions[0], labels[0]));
      matches + Correct(predictions[1..], labels[1..])
  }

  /** `total`: the lengths of the filtered label lists, summed. */
  function Total(predictions: seq<seq<int>>, labels: seq<seq<int>>): (r: nat)
    decreases |predictions|
  {
    if |predictions| == 0 || |labels| == 0 then 0
    else |ScoredLabels(predictions[0], labels[0])| + Total(predictions[1..], labels[1..])
  }

  /** The number of labels that are not ignored, over the positions `zip`
      pairs with a prediction, summed over the sentence pairs. */
  function KeptLabelCount(predictions: seq<seq<int>>, labels: seq<seq<int>>): nat
    decreases |predictions|
  {
    if |predictions| == 0 || |labels| == 0 then 0
    else CountKept(labels[0], ZipLength(predictions[0], labels[0])) + KeptLabelCount(predictions[1..], labels[1..])
  }

  /** `correct` never exceeds `total`, and `total` counts exactly the labels
      that are not ignored. */
  lemma {:induction false} CorrectAtMostTotal(predictions: seq<seq<int>>, labels: seq<seq<int>>)
    ensures Correct(predictions, labels) <= Total(predictions, labels)
    ensures Total(predictions, labels) == KeptLabelCount(predictions, labels)
    decreases |predictions|
  {
    if |predictions| > 0 && |labels| > 0 {
      var p := predictions[0];
      var l := labels[0];
      ScoredListsAligned(p, l);
      KeptLength(l, l, ZipLength(p, l));
      CorrectAtMostTotal(predictions[1..], labels[1..]);
    }
  }

  /** Every prediction `zip` pairs with a label that is not ignored equals
      that label. */
  predicate SentenceMatches(prediction: seq<int>, gold: seq<int>)
  {
    forall k :: 0 <= k < ZipLength(prediction, gold) && gold[k] != Ignored ==> prediction[k] == gold[k]
  }

  /** Every scored prediction equals its label, in every sentence pair. */
  predicate AllScoredMatch(predictions: seq<seq<int>>, labels: seq<seq<int>>)
  {
    forall i :: 0 <= i < |predictions| && i < |labels| ==> SentenceMatches(predictions[i], labels[i])
  }

  /** Within one sentence, the matches reach the number of scored labels
      exactly when every scored prediction is right. */
  lemma SentenceMatchesIff(prediction: seq<int>, gold: seq<int>)
    ensures var ps := ScoredPredictions(prediction, gold); var ls := ScoredLabels(prediction, gold);
      MatchCount(ps, ls) == |ls| <==> SentenceMatches(prediction, gold)
  {
    var ks := KeptPositions(gold, ZipLength(prediction, gold));
    var ps := ScoredPredictions(prediction, gold);
    var ls := ScoredLabels(prediction, gold);
    ScoredListsAligned(prediction, gold);
    MatchCountFullIff(ps, ls);
    if forall i :: 0 <= i < |ls| ==> ps[i] == ls[i] {
      forall k | 0 <= k < ZipLength(prediction, gold) && gold[k] != Ignored
        ensures prediction[k] == gold[k]
      {
        var i :| 0 <= i < |ks| && ks[i] == k;
        assert ps[i] == ls[i];
      }
    }
  }

  /** `correct == total` exactly when every scored prediction is right. */
  lemma {:induction false} CorrectEqualsTotalIff(predictions: seq<seq<int>>, labels: seq<seq<int>>)
    ensures Correct(predictions, labels) == Total(predictions, labels) <==> AllScoredMatch(predictions, labels)
    decreases |predictions|
  {
    if |predictions| > 0 && |labels| > 0 {
      var p := predictions[0];
      var l := labels[0];
      CorrectEqualsTotalIff(predictions[1..], labels[1..]);
      CorrectAtMostTotal(predictions[1..], labels[1..]);
      SentenceMatchesIff(p, l);
      ScoredListsAligned(p, l);
      if AllScoredMatch(predictions, labels) {
        forall i | 0 <= i < |predictions[1..]| && i < |labels[1..]|
          ensures SentenceMatches(predictions[1..][i], labels[1..][i])
        {
          assert predictions[1..][i] == predictions[i + 1] && labels[1..][i] == labels[i + 1];
        }
      } else {
        var i :| 0 <= i < |predictions| && i < |labels| && !SentenceMatches(predictions[i], labels[i]);
        if i > 0 {
          assert predictions[1..][i - 1] == predictions[i] && labels[1..][i - 1] == labels[i];
        }
      }
    }
  }

  /** `correct / total if total > 0 else 0`, over exact rationals: between
      0 and 1, and 1 exactly when every scored prediction is right. */
  function Accuracy(predictions: seq<seq<int>>, labels: seq<seq<int>>): (r: real)
    ensures 0.0 <= r <= 1.0
    ensures Total(predictions, labels) > 0 ==> (r == 1.0 <==> AllScoredMatch(predictions, labels))
    ensures Total(predictions, labels) == 0 ==> r == 0.0
  {
    var correct := Correct(predictions, labels);
    var total := Total(predictions, labels);
    CorrectAtMostTotal(predictions, labels);
    CorrectEqualsTotalIff(predictions, labels);
    if total > 0 then
      RatioBounds(correct, total);
      correct as real / total as real
    else 0.0
  }

  lemma RatioBounds(c: nat, t: nat)
    requires 0 < t && c <= t
    ensures 0.0 <= c as real / t as real <= 1.0
    ensures c as real / t as real == 1.0 <==> c == t
  {
    var q := c as real / t as real;
    assert q * t as real == c as real;
  }
}
