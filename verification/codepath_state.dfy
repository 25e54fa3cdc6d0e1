/** The record an exhaustion run produces. */
module CodepathState {
  import opened Outcomes

  /**
   * `expectedTriggerCount` is the number of probes the Count pass found,
   * `triggerCount` the number of Trigger passes that failed as they should, and
   * `unexpectedResult` the whole result of the pass that deviated, if any.
   */
  datatype CodePathResult<T, E> = CodePathResult(expectedTriggerCount: int, triggerCount: int,
                                                 unexpectedResult: Option<Result<T, E>>)
  {
    /** `success()`: a comparison of the two counts, nothing more. */
    predicate Success()
    {
      triggerCount == expectedTriggerCount
    }
  }

  /**
   * `success()` holds exactly when the two counts agree, and it never looks at
   * `unexpectedResult`: a record with equal counts and a deviating result still
   * reports success, and one with unequal counts and no deviation does not.
   */
  lemma SuccessComparesCountsOnly<T, E>(r: CodePathResult<T, E>, other: Option<Result<T, E>>)
    ensures r.Success() <==> r.triggerCount == r.expectedTriggerCount
    ensures r.(unexpectedResult := other).Success() == r.Success()
  {
  }
}
