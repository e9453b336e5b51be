/** The reduction metric `(1 - summ_len / orig_len) * 100`, computed exactly
    over the rationals; a zero original count is Python's division by zero. */
module Metrics {

  datatype Option<T> = None | Some(value: T)

  /** The percentage reduction of a summary of `summaryWords` words against
      an original of `originalWords` words, or None when the division by
      `originalWords` raises. */
  function Reduction(originalWords: nat, summaryWords: nat): (r: Option<real>)
    ensures r.None? <==> originalWords == 0
    ensures r.Some? ==> r.value * originalWords as real == 100.0 * (originalWords as real - summaryWords as real)
  {
    if originalWords == 0 then None
    else Some((1.0 - summaryWords as real / originalWords as real) * 100.0)
  }

  /** A summary no longer than the original reduces it by 0 to 100 percent. */
  lemma ReductionWithinPercent(originalWords: nat, summaryWords: nat)
    requires 0 < originalWords && summaryWords <= originalWords
    ensures 0.0 <= Reduction(originalWords, summaryWords).value <= 100.0
  {
  }

  /** The reduction is negative exactly when the summary has more words than
      the original. */
  lemma ReductionNegativeIff(originalWords: nat, summaryWords: nat)
    requires 0 < originalWords
    ensures Reduction(originalWords, summaryWords).value < 0.0 <==> summaryWords > originalWords
  {
  }

  /** Full reduction means an empty summary; none means equal lengths. */
  lemma ReductionExtremes(originalWords: nat, summaryWords: nat)
    requires 0 < originalWords
    ensures Reduction(originalWords, summaryWords).value == 100.0 <==> summaryWords == 0
    ensures Reduction(originalWords, summaryWords).value == 0.0 <==> summaryWords == originalWords
  {
  }

  /** A longer summary never reports a larger reduction. */
  lemma ReductionAntitone(originalWords: nat, shorter: nat, longer: nat)
    requires 0 < originalWords && shorter <= longer
    ensures Reduction(originalWords, longer).value <= Reduction(originalWords, shorter).value
  {
  }

  /** A 200-word article summarised in 20 words is reduced by 90 percent. */
  lemma ReductionExample()
    ensures Reduction(200, 20) == Some(90.0)
  {
  }
}
