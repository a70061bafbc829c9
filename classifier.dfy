/** Turning the classifier's score vector into a condition name: `classes[np.argmax(predictions)]`. */
module Classifier {
  import opened Common

  /** The fixed, ordered class vocabulary. */
  const Classes: seq<string> := ["seborrheic_keratosis", "nevus", "melanoma"]

  /** `i` is the first index holding the largest score: no score exceeds it and every earlier one is smaller. */
  ghost predicate IsFirstMax(scores: seq<real>, i: int)
  {
    0 <= i < |scores|
    && (forall j :: 0 <= j < |scores| ==> scores[j] <= scores[i])
    && (forall j :: 0 <= j < i ==> scores[j] < scores[i])
  }

  /** `np.argmax` over a non-empty score vector: the first index of a maximum. */
  function ArgMax(scores: seq<real>): (i: nat)
    requires |scores| > 0
    ensures IsFirstMax(scores, i)
  {
    if |scores| == 1 then 0
    else
      var k := ArgMax(scores[..|scores| - 1]);
      if scores[|scores| - 1] > scores[k] then |scores| - 1 else k
  }

  /** There is only one first maximum, so ArgMax is determined by IsFirstMax. */
  lemma FirstMaxUnique(scores: seq<real>, i: int)
    requires IsFirstMax(scores, i)
    ensures ArgMax(scores) == i
  {
  }

  /** Why label selection raised: `np.argmax` of no scores, or an index past the end of `classes`. */
  datatype LabelError = EmptyScores | NoSuchClass(index: nat)

  /** `classes[np.argmax(predictions)]`, with the two exceptions that expression can raise. */
  function Classify(scores: seq<real>): (r: Result<string, LabelError>)
    ensures r == Err(EmptyScores) <==> |scores| == 0
    ensures r.Err? <==> |scores| == 0 || ArgMax(scores) >= |Classes|
    ensures r.Ok? ==> r.value in Classes
  {
    if |scores| == 0 then Err(EmptyScores)
    else
      var i := ArgMax(scores);
      if i < |Classes| then Ok(Classes[i]) else Err(NoSuchClass(i))
  }

  /** The selected label is the class at the first maximal score, when that index names a class. */
  lemma ClassifyPicksFirstMax(scores: seq<real>, i: int)
    requires IsFirstMax(scores, i)
    ensures i < |Classes| ==> Classify(scores) == Ok(Classes[i])
    ensures i >= |Classes| ==> Classify(scores) == Err(NoSuchClass(i))
  {
    FirstMaxUnique(scores, i);
  }

  /** For the model's three-score output the label is always one of the vocabulary, never an error. */
  lemma ThreeScoresAlwaysLabelled(scores: seq<real>)
    requires |scores| == |Classes|
    ensures Classify(scores).Ok?
  {
  }

  /** Ties go to the lowest index: scores 0.5, 0.5, 0.0 select `seborrheic_keratosis`. */
  lemma TieGoesToLowestIndex()
    ensures Classify([0.5, 0.5, 0.0]) == Ok("seborrheic_keratosis")
  {
    ClassifyPicksFirstMax([0.5, 0.5, 0.0], 0);
  }
}
