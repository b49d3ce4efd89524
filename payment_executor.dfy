/**
 * The payment participant of the two-phase commit (`PaymentExecutionService`).
 * The service has no fields, so both handlers are functions of their input.
 */
module PaymentExecutor {

  /** `ExecutePayment`: the answer is failure whether the global decision is commit or abort. */
  function ExecutePayment(globalCommit: bool): (success: bool)
    ensures !success
  {
    false
  }

  /**
   * `SendVoteToCordinator`: a weighted random draw (`drawnVote`) only picks
   * the log line; the answer is a commit vote either way.
   */
  function SendVoteToCoordinator(drawnVote: bool): (voteCommit: bool)
    ensures voteCommit
  {
    true
  }
}
