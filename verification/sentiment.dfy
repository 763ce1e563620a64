/**
 The sentiment label of `analyze_sentiment_vader`. The VADER compound score
 is computed by a foreign library and enters the model as a `real`: the
 decimal the float prints as (VADER rounds it to four places). A compound of
 0.05 is then exactly 0.05 and neutral, as `0.05 > 0.05` is false in Python.
 */
module Sentiment {

  datatype Label = Positive | Negative | Neutral {

    /** The label as the dashboard displays it. */
    function Name(): (s: string)
      ensures |s| > 0
    {
      match this
      case Positive => "Positivo"
      case Negative => "Negativo"
      case Neutral => "Neutro"
    }

    /** Position on the negative-to-positive scale. */
    function Rank(): (n: int)
      ensures -1 <= n <= 1
    {
      match this
      case Negative => -1
      case Neutral => 0
      case Positive => 1
    }
  }

  const PositiveAbove: real := 0.05
  const NegativeBelow: real := -0.05

  /**
   Thresholding of the compound score: strictly above 0.05 is positive,
   strictly below -0.05 is negative, and the closed band between them,
   boundaries included, is neutral.
   */
  function Classify(compound: real): (l: Label)
    ensures l == Positive <==> compound > 0.05
    ensures l == Negative <==> compound < -0.05
    ensures l == Neutral <==> -0.05 <= compound <= 0.05
  {
    if compound > PositiveAbove then Positive
    else if compound < NegativeBelow then Negative
    else Neutral
  }

  /** A higher score never gets a lower label. */
  lemma ClassifyMonotone(a: real, b: real)
    requires a <= b
    ensures Classify(a).Rank() <= Classify(b).Rank()
  {
  }

  /** The three displayed names are distinct, so the label is recoverable from its name. */
  lemma NamesDistinct(l: Label, m: Label)
    ensures l.Name() == m.Name() <==> l == m
  {
  }
}
