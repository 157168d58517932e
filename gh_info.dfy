/**
 * What the GitHub CLI reports about the current branch: its pull request
 * (`gh pr view --json=...`) and the state of its Actions run. The record
 * `gh` prints is taken as already decoded; the model keeps the mapping from
 * that record to the pull request the segments read.
 */
module GhInfo {
  import opened Wrappers
  import opened Text
  import opened Process

  datatype PullRequestState = Open | Closed | Merged

  datatype PullRequest = PullRequest(
    number: int,
    state: PullRequestState,
    comments: int,
    isDraft: bool,
    isApproved: bool)

  /** The conclusion of the branch's workflow run, read by the Actions segment. */
  datatype ActionsStatus = InProgress | Success | Failure | Cancelled | Skipped

  datatype Actions = Actions(status: ActionsStatus)

  datatype GhInfo = GhInfo(pullRequest: PullRequest, actions: Option<Actions>)

  /** Comments and reviews carry no field the prompt reads. */
  datatype PrComment = PrComment
  datatype PrReview = PrReview

  /** The decoded output of `gh pr view`. */
  datatype PrResult = PrResult(
    number: int,
    state: PullRequestState,
    comments: seq<PrComment>,
    reviews: seq<PrReview>,
    reviewDecision: string,
    isDraft: bool)

  /** The state names of the JSON output: the variant names in upper case. */
  function StateName(s: PullRequestState): string {
    match s
    case Open => "OPEN"
    case Closed => "CLOSED"
    case Merged => "MERGED"
  }

  /** Decoding of the state field: exactly the three upper-case names; anything else fails to decode. */
  function ParseState(name: string): (r: Option<PullRequestState>)
    ensures r.Some? ==> StateName(r.value) == name
  {
    match name
    case "OPEN" => Some(Open)
    case "CLOSED" => Some(Closed)
    case "MERGED" => Some(Merged)
    case _ => None
  }

  lemma StateNameRoundTrip(s: PullRequestState)
    ensures ParseState(StateName(s)) == Some(s)
  {
  }

  /** The review decision that marks a pull request as approved. */
  const Approved: string := "APPROVED"

  /**
   * The mapping in `load_pull_request`: the comment count is the number of
   * comments plus the number of reviews, cast to `i32`; the pull request is
   * approved exactly when the review decision is `APPROVED`; the number, the
   * state and the draft flag are copied.
   */
  function PullRequestOf(result: PrResult): (pr: PullRequest)
    ensures pr.number == result.number && pr.state == result.state && pr.isDraft == result.isDraft
    ensures pr.comments == AsI32(|result.comments| + |result.reviews|)
    ensures pr.isApproved <==> result.reviewDecision == Approved
  {
    PullRequest(
      result.number,
      result.state,
      AsI32(|result.comments| + |result.reviews|),
      result.isDraft,
      result.reviewDecision == Approved)
  }

  /** Below 2^31 comments and reviews, the count is their exact sum and never negative. */
  lemma CommentCount(result: PrResult)
    requires |result.comments| + |result.reviews| < 0x8000_0000
    ensures PullRequestOf(result).comments == |result.comments| + |result.reviews| >= 0
  {
  }

  /** Any other decision, `REVIEW_REQUIRED`, `CHANGES_REQUESTED` or a lower-case spelling among them, is no approval. */
  lemma OnlyApprovedApproves()
    ensures !PullRequestOf(PrResult(1, Open, [], [], "REVIEW_REQUIRED", false)).isApproved
    ensures !PullRequestOf(PrResult(1, Open, [], [], "CHANGES_REQUESTED", false)).isApproved
    ensures !PullRequestOf(PrResult(1, Open, [], [], "approved", false)).isApproved
  {
    assert "REVIEW_REQUIRED"[0] != Approved[0];
    assert "CHANGES_REQUESTED"[0] != Approved[0];
    assert "approved"[0] != Approved[0];
  }

  /** `load_pull_request`: the mapped record of a successful run, none otherwise. */
  function LoadPullRequest(output: CommandOutput<PrResult>): (r: Option<PullRequest>)
    ensures r.Some? <==> output.Exited? && output.success && output.decoded.Some?
    ensures r.Some? ==> r.value == PullRequestOf(output.decoded.value)
  {
    match Decoded(output)
    case None => None
    case Some(result) => Some(PullRequestOf(result))
  }

  /**
   * `load_gh_info`: present exactly when the pull request loads. The Actions
   * status comes from a query that is not part of this model and is passed in.
   */
  function LoadGhInfo(output: CommandOutput<PrResult>, actions: Option<Actions>): (r: Option<GhInfo>)
    ensures r.Some? <==> LoadPullRequest(output).Some?
    ensures r.Some? ==> r.value.pullRequest == LoadPullRequest(output).value && r.value.actions == actions
  {
    match LoadPullRequest(output)
    case None => None
    case Some(pr) => Some(GhInfo(pr, actions))
  }
}
