/** Checks on a manual review request. */
module ManualReviewHandler {
  import opened Models

  /** `validate_request`: only a positive pull-request id is accepted. */
  predicate ValidateRequest(request: ReviewRequest) {
    request.prId > 0
  }

  /** `should_force_refresh`: the request's own flag. */
  function ShouldForceRefresh(request: ReviewRequest): (b: bool)
    ensures b <==> request.forceRefresh
  {
    request.forceRefresh
  }

  /**
   * Ids 0 and below are refused and every id from 1 is accepted; a request
   * naming only the id does not force a refresh.
   */
  lemma DefaultRequests(prId: int)
    ensures ValidateRequest(DefaultReviewRequest(prId)) <==> prId >= 1
    ensures !ShouldForceRefresh(DefaultReviewRequest(prId))
  {
  }
}
