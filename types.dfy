/** The records the bot passes between its parts (src/types.ts), with the
    GitHub payload fields the core reads. Timestamps are whole numbers
    (milliseconds since the epoch); the string forms the source stores are not
    modelled. */
module Types {
  import opened Common

  /** The review verdicts GitHub reports, spelled APPROVED,
      CHANGES_REQUESTED, COMMENTED, PENDING and DISMISSED in the API. */
  datatype ReviewState = Approved | ChangesRequested | Commented | Pending | Dismissed

  /** One entry of `pulls.listReviews`: the reviewer's login, the verdict
      and `submitted_at`. */
  datatype Review = Review(login: string, state: ReviewState, submittedAt: int)

  datatype ReviewerInfo = ReviewerInfo(login: string, state: ReviewState)

  /** The lifecycle state the bot tracks: 'open' | 'closed' | 'merged'. */
  datatype PRState = Open | Closed | Merged

  /** One pull request as `pulls.list` / `pulls.get` return it. `state` is
      GitHub's own 'open' / 'closed'; `draft` may be missing. */
  datatype GhPull = GhPull(
    number: int,
    title: string,
    htmlUrl: string,
    state: string,
    draft: Option<bool>,
    merged: bool,
    author: string,
    createdAt: int,
    updatedAt: int)

  /** PRData: a pull request with its derived review status. */
  datatype PRData = PRData(
    repo: string,
    owner: string,
    number: int,
    title: string,
    author: string,
    url: string,
    approvals: nat,
    requiredApprovals: int,
    reviewers: seq<ReviewerInfo>,
    isDraft: bool,
    state: PRState,
    createdAt: int,
    updatedAt: int)

  /** AppConfig, as loadConfig builds it from the environment. */
  datatype AppConfig = AppConfig(
    githubToken: string,
    githubOrg: string,
    githubRepos: seq<string>,
    githubWebhookSecret: string,
    teamMembers: seq<string>,
    requiredApprovals: int,
    slackBotToken: string,
    slackSigningSecret: string,
    slackChannel: string,
    userMappings: string,
    port: int)

  /** A failed call to GitHub or Slack. A rate-limited Slack call carries
      `data.retryAfter` (a number of seconds, 0 or absent when not given)
      and/or a `retry-after` header already read as a number. */
  datatype Fault = Fault(message: string, dataRetryAfter: Option<int>, headerRetryAfter: Option<int>)
}
