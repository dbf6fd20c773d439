/**
 * Chamber votes. The quorum and majority evaluator `passes_vote` is not part
 * of this model: every chamber action receives it as a parameter and may only
 * rely on what it returns.
 */
module Voting {
  import opened Types
  import opened Rules

  /** `passes_vote(vote, majority)`: `Pass`, or the quorum or majority error it raises. */
  type VoteEvaluator = (VoteRecord, MajorityType) -> Outcome
}
