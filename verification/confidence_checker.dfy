/** Turns a wheel-well confidence value into one of three verdicts. */
module ConfidenceChecker {

  datatype ConfidenceCheckResult = TireLikely | MaybeATire | ProbablyNotATire {
    /** The verdict's display string; each string names exactly one verdict. */
    function Label(): (s: string)
      ensures s == "tire likely" <==> TireLikely?
      ensures s == "maybe a tire" <==> MaybeATire?
      ensures s == "probably not a tire" <==> ProbablyNotATire?
    {
      match this
      case TireLikely => "tire likely"
      case MaybeATire => "maybe a tire"
      case ProbablyNotATire => "probably not a tire"
    }

    /** Strength of the verdict: ProbablyNotATire < MaybeATire < TireLikely. */
    function Rank(): nat
    {
      match this
      case ProbablyNotATire => 0
      case MaybeATire => 1
      case TireLikely => 2
    }
  }

  /** Lower bound (inclusive) of the TireLikely band. */
  const TireLikelyThreshold: real := 0.75
  /** Lower bound (inclusive) of the MaybeATire band. */
  const MaybeATireThreshold: real := 0.5

  /** Classifies a confidence value against two inclusive cut-offs. */
  function MakeConfidenceChecker(threshold: real): (r: ConfidenceCheckResult)
    ensures r == TireLikely <==> threshold >= 0.75
    ensures r == MaybeATire <==> 0.5 <= threshold < 0.75
    ensures r == ProbablyNotATire <==> threshold < 0.5
  {
    if threshold >= TireLikelyThreshold then TireLikely
    else if threshold >= MaybeATireThreshold then MaybeATire
    else ProbablyNotATire
  }

  /** A larger confidence never gets a weaker verdict. */
  lemma ClassificationMonotone(a: real, b: real)
    requires a <= b
    ensures MakeConfidenceChecker(a).Rank() <= MakeConfidenceChecker(b).Rank()
  {
  }

  /** A strictly stronger verdict implies a strictly larger confidence. */
  lemma StrongerVerdictHigherConfidence(a: real, b: real)
    requires MakeConfidenceChecker(a).Rank() < MakeConfidenceChecker(b).Rank()
    ensures a < b
  {
  }

  /** The three verdicts carry three different labels. */
  lemma LabelsDistinct(r1: ConfidenceCheckResult, r2: ConfidenceCheckResult)
    requires r1 != r2
    ensures r1.Label() != r2.Label()
  {
  }
}
