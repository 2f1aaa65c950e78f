/** The single-request operations of pullRequest.js: list the pull requests of a
    repository, merge one, create one. Each takes the service's reply as a
    parameter and gives the request it sends and what it returns and reports. No
    fault escapes any of them: each is caught and turned into a report. */
module PullRequest {
  import opened Wrappers
  import opened Remote

  /** A pull request as the service describes it. */
  datatype PullRequestInfo = PullRequestInfo(id: nat, title: string, source: string, destination: string)

  function PullRequestsPath(workspace: string, repo: string): string {
    RepositoryPath(workspace, repo) + "/pullrequests"
  }

  /** The state listed when the caller names none. */
  const DefaultState := "OPEN"

  /** What listPullRequests tells the operator: nothing found (an informational
      message, not an error), the listing, or the error message. */
  datatype ListReport = NoPullRequests(state: string) | Shown(state: string, repo: string) | ListError(message: string)

  /** The request sent (its path and `state` parameter), the value returned and the
      report. */
  datatype ListOutcome = ListOutcome(path: string, state: string, pullRequests: seq<PullRequestInfo>, report: ListReport)

  /** listPullRequests: the listed pull requests in the service's order; `[]` both
      when there are none and when the call fails, told apart only by the report. */
  function ListPullRequests(workspace: string, repo: string, state: string,
                            reply: Response<seq<PullRequestInfo>>): (o: ListOutcome)
    ensures o.path == PullRequestsPath(workspace, repo) + "?pagelen=50" && o.state == state
    ensures o.pullRequests == (if reply.Ok? then reply.data else [])
    ensures o.report.ListError? <==> reply.Failed?
    ensures reply.Failed? ==> o.report.message == ErrorMessage(reply.fault)
    ensures o.report.NoPullRequests? <==> reply.Ok? && reply.data == []
    ensures o.report.Shown? ==> o.pullRequests != [] && o.report == Shown(state, repo)
  {
    var path := PullRequestsPath(workspace, repo) + "?pagelen=50";
    match reply
    case Failed(f) => ListOutcome(path, state, [], ListError(ErrorMessage(f)))
    case Ok(prs) =>
      if prs == [] then ListOutcome(path, state, [], NoPullRequests(state))
      else ListOutcome(path, state, prs, Shown(state, repo))
  }

  /** Listing with the default state and zero results: `[]`, with the
      informational "no open pull requests" report rather than an error. */
  lemma NoOpenPullRequests(workspace: string, repo: string)
    ensures var o := ListPullRequests(workspace, repo, DefaultState, Ok([]));
      o.state == "OPEN" && o.pullRequests == [] && o.report == NoPullRequests("OPEN")
  {
  }

  const MergeStrategy := "merge_commit"

  datatype MergeBody = MergeBody(mergeStrategy: string, message: string)

  datatype MergeReport = Merged(id: nat) | MergeError(message: string)

  /** The request sent, the value returned (`None` for `null`) and the report. */
  datatype MergeOutcome = MergeOutcome(path: string, body: MergeBody, result: Option<PullRequestInfo>, report: MergeReport)

  /** The merge message: the caller's when it is non-empty, otherwise the default
      text naming the pull request's id. */
  function MergeMessage(prId: nat, message: string): (m: string)
    ensures m != ""
    ensures message != "" ==> m == message
    ensures message == "" ==>
      && |m| >= 30
      && m[..21] == "Merged pull request #"
      && m[|m| - 8..] == " via CLI"
      && IsDecimal(m[21..|m| - 8])
      && DecimalValue(m[21..|m| - 8]) == prId
  {
    if message != "" then message
    else
      var digits := NatToString(prId);
      var m := "Merged pull request #" + digits + " via CLI";
      assert m[21..|m| - 8] == digits;
      m
  }

  /** mergePullRequest: always the merge-commit strategy; the response data on
      success, `null` on failure. */
  function MergePullRequest(workspace: string, repo: string, prId: nat, message: string,
                            reply: Response<PullRequestInfo>): (o: MergeOutcome)
    ensures o.path == PullRequestsPath(workspace, repo) + "/" + NatToString(prId) + "/merge"
    ensures o.body.mergeStrategy == "merge_commit"
    ensures o.body.message == MergeMessage(prId, message)
    ensures o.result.Some? <==> reply.Ok?
    ensures reply.Ok? ==> o.result.value == reply.data && o.report == Merged(prId)
    ensures reply.Failed? ==> o.report == MergeError(ErrorMessage(reply.fault))
  {
    var path := PullRequestsPath(workspace, repo) + "/" + NatToString(prId) + "/merge";
    var body := MergeBody(MergeStrategy, MergeMessage(prId, message));
    match reply
    case Ok(data) => MergeOutcome(path, body, Some(data), Merged(prId))
    case Failed(f) => MergeOutcome(path, body, None, MergeError(ErrorMessage(f)))
  }

  /** The fixed description of every created pull request. */
  const Description := "Bring more bugs \U{1F41E}\U{1F41E}\U{1F41E}"

  datatype CreateBody = CreateBody(title: string, description: string, source: string,
                                   destination: string, closeSourceBranch: bool)

  /** What createBitbucketPR reports: the new pull request's link, or the failed
      pair with the error message. */
  datatype CreateOutcome = Created(href: string) | CreateFailed(source: string, destination: string, message: string)

  /** One create call: the request's path and body, and its outcome. */
  datatype CreateCall = CreateCall(path: string, body: CreateBody, outcome: CreateOutcome)

  function PullRequestTitle(source: string, destination: string): string {
    "Merge " + source + " into " + destination + " created by CLI"
  }

  /** createBitbucketPR: one POST for the pair; the source branch is never closed;
      a fault is reported and swallowed. The reply to a successful call is the
      `links.html.href` of the new pull request. */
  function CreateBitbucketPR(workspace: string, repo: string, source: string, destination: string,
                             reply: Response<string>): (c: CreateCall)
    ensures c.path == PullRequestsPath(workspace, repo)
    ensures c.body.source == source && c.body.destination == destination
    ensures c.body.title == PullRequestTitle(source, destination)
    ensures c.body.description == Description && !c.body.closeSourceBranch
    ensures c.outcome.Created? <==> reply.Ok?
    ensures reply.Ok? ==> c.outcome.href == reply.data
    ensures reply.Failed? ==> c.outcome == CreateFailed(source, destination, ErrorMessage(reply.fault))
  {
    var body := CreateBody(PullRequestTitle(source, destination), Description, source, destination, false);
    var outcome := match reply
      case Ok(href) => Created(href)
      case Failed(f) => CreateFailed(source, destination, ErrorMessage(f));
    CreateCall(PullRequestsPath(workspace, repo), body, outcome)
  }

  /** The title names both branches, the source first, and nothing else varies. */
  lemma TitleNamesBranches(source: string, destination: string)
    ensures var t := PullRequestTitle(source, destination);
      && |t| == |source| + |destination| + 27
      && t[6..6 + |source|] == source
      && t[12 + |source|..12 + |source| + |destination|] == destination
  {
    var t := PullRequestTitle(source, destination);
    assert t == "Merge " + source + " into " + destination + " created by CLI";
  }
}
