/** createPullRequest of pullRequest.js: resolve the source branch (reuse the saved
    one or pick from the fetched list), resolve the destination branches (reuse the
    saved set or multi-select from the fetched list minus the source), save both,
    then create one pull request per destination, in order.

    Everything the run does outside itself is an effect in the returned trace. The
    operator's answers are parameters, the branch listing is the page oracle of
    module Branch, and `replies(k)` is the service's reply to the k-th create call. */
module CreateWorkflow {
  import opened Remote
  import opened Lists
  import opened Branch
  import opened PullRequest

  /** What the configuration holds for the repository when the run starts. "" and
      [] stand for "nothing saved": the code treats a missing entry and an empty
      one alike. */
  datatype Saved = Saved(source: string, destinations: seq<string>)

  /** The operator's answers. An answer is read only when its prompt is shown. */
  datatype Answers = Answers(reuseSource: bool, source: string,
                             reuseDestinations: bool, destinations: seq<string>)

  datatype Effect =
    | ConfirmSourceReuse(savedSource: string)                          // confirm prompt
    | FetchBranches(requests: seq<string>)                          // a paginated listing
    | NoBranchesFound                                               // reported; the run ends
    | SelectSource(choices: seq<string>)                            // single-choice prompt
    | ConfirmDestinationReuse(savedDestinations: seq<string>)                // confirm prompt
    | SelectDestinations(choices: seq<string>, preselected: seq<string>)  // checkbox prompt
    | SaveSource(repo: string, branch: string)                      // saveSourceBranch
    | SaveDestinations(repo: string, branches: seq<string>)         // saveDestinationBranches
    | Create(call: CreateCall)                                      // createBitbucketPR

  /** A saved source exists and the operator confirms reusing it. */
  predicate ReusesSource(saved: Saved, answers: Answers) {
    saved.source != "" && answers.reuseSource
  }

  /** A non-empty saved destination set exists and the operator confirms reusing it. */
  predicate ReusesDestinations(saved: Saved, answers: Answers) {
    saved.destinations != [] && answers.reuseDestinations
  }

  function ResolvedSource(saved: Saved, answers: Answers): string {
    if ReusesSource(saved, answers) then saved.source else answers.source
  }

  function ResolvedDestinations(saved: Saved, answers: Answers): seq<string> {
    if ReusesDestinations(saved, answers) then saved.destinations else answers.destinations
  }

  /** What the prompts admit as answers, given the fetched branch list: the source
      is one of the branches, and the destinations are at least one of the branches
      other than the source. */
  predicate AnswersFit(saved: Saved, answers: Answers, branches: seq<string>) {
    && (!ReusesSource(saved, answers) && branches != [] ==> answers.source in branches)
    && (!ReusesDestinations(saved, answers) && branches != [] ==>
          && answers.destinations != []
          && forall d :: d in answers.destinations ==> d in Without(branches, ResolvedSource(saved, answers)))
  }

  /** The create calls for `destinations`, in order, the k-th answered by `replies(k)`. */
  function Creates(workspace: string, repo: string, source: string, destinations: seq<string>,
                   replies: nat -> Response<string>): seq<Effect>
  {
    if destinations == [] then []
    else
      var k := |destinations| - 1;
      Creates(workspace, repo, source, destinations[..k], replies)
        + [Create(CreateBitbucketPR(workspace, repo, source, destinations[k], replies(k)))]
  }

  /** The effects of one run, step by step as the state machine takes them. */
  function Run(workspace: string, repo: string, saved: Saved, answers: Answers,
               pages: seq<PageResult>, replies: nat -> Response<string>): seq<Effect>
  {
    var branches := Paginate(pages);
    var fetch := FetchBranches(Requests(FirstPageUrl(workspace, repo), pages));
    var askSource := if saved.source != "" then [ConfirmSourceReuse(saved.source)] else [];
    var askDestinations :=
      if saved.destinations != [] then [ConfirmDestinationReuse(saved.destinations)] else [];
    var source := ResolvedSource(saved, answers);
    var destinations := ResolvedDestinations(saved, answers);
    var select := SelectDestinations(Without(branches, source), saved.destinations);
    var finish := [SaveSource(repo, source), SaveDestinations(repo, destinations)]
      + Creates(workspace, repo, source, destinations, replies);
    if !ReusesSource(saved, answers) then
      if branches == [] then askSource + [fetch, NoBranchesFound]
      else if ReusesDestinations(saved, answers) then
        askSource + [fetch, SelectSource(branches)] + askDestinations + finish
      else askSource + [fetch, SelectSource(branches)] + askDestinations + [select] + finish
    else if ReusesDestinations(saved, answers) then askSource + askDestinations + finish
    else if branches == [] then askSource + askDestinations + [fetch, NoBranchesFound]
    else askSource + askDestinations + [fetch, select] + finish
  }

  /** The `for…of` loop: one createBitbucketPR per destination, in order. */
  method CreateEach(workspace: string, repo: string, source: string, destinations: seq<string>,
                    replies: nat -> Response<string>) returns (effects: seq<Effect>)
    ensures effects == Creates(workspace, repo, source, destinations, replies)
  {
    effects := [];
    for k := 0 to |destinations|
      invariant effects == Creates(workspace, repo, source, destinations[..k], replies)
    {
      assert destinations[..k + 1][..k] == destinations[..k];
      effects := effects + [Create(CreateBitbucketPR(workspace, repo, source, destinations[k], replies(k)))];
    }
    assert destinations[..|destinations|] == destinations;
  }

  /** createPullRequest for the repository `repo` of `workspace`. */
  method CreatePullRequest(workspace: string, repo: string, saved: Saved, answers: Answers,
                           pages: seq<PageResult>, replies: nat -> Response<string>)
    returns (trace: seq<Effect>)
    requires Ends(pages)
    requires AnswersFit(saved, answers, Paginate(pages))
    ensures trace == Run(workspace, repo, saved, answers, pages, replies)
  {
    ghost var fetch := FetchBranches(Requests(FirstPageUrl(workspace, repo), pages));
    ghost var askSource := if saved.source != "" then [ConfirmSourceReuse(saved.source)] else [];
    ghost var askDestinations :=
      if saved.destinations != [] then [ConfirmDestinationReuse(saved.destinations)] else [];
    ghost var source := ResolvedSource(saved, answers);
    ghost var select := SelectDestinations(Without(Paginate(pages), source), saved.destinations);

    trace := [];
    var branches: seq<string> := [];
    var sourceBranch := "";
    var reuseSourceBranches := false;
    if saved.source != "" {
      trace := trace + [ConfirmSourceReuse(saved.source)];
      reuseSourceBranches := answers.reuseSource;
    }
    assert trace == askSource;
    assert reuseSourceBranches == ReusesSource(saved, answers);
    if !reuseSourceBranches {
      var requested;
      branches, requested := FetchBranchesPaginated(workspace, repo, pages);
      trace := trace + [FetchBranches(requested)];
      if |branches| == 0 {
        trace := trace + [NoBranchesFound];
        assert trace == askSource + [fetch, NoBranchesFound];
        return;
      }
      trace := trace + [SelectSource(branches)];
      sourceBranch := answers.source;
      assert trace == askSource + [fetch, SelectSource(Paginate(pages))];
    } else {
      sourceBranch := saved.source;
    }
    ghost var sourceStep := trace;
    assert sourceBranch == source;
    var reuseDestinationBranches := false;
    if saved.destinations != [] {
      trace := trace + [ConfirmDestinationReuse(saved.destinations)];
      reuseDestinationBranches := answers.reuseDestinations;
    }
    assert trace == sourceStep + askDestinations;
    assert reuseDestinationBranches == ReusesDestinations(saved, answers);
    var destinationBranches;
    if reuseDestinationBranches {
      destinationBranches := saved.destinations;
    } else {
      if |branches| == 0 {
        var requested;
        branches, requested := FetchBranchesPaginated(workspace, repo, pages);
        trace := trace + [FetchBranches(requested)];
        if |branches| == 0 {
          trace := trace + [NoBranchesFound];
          assert trace == askSource + askDestinations + [fetch, NoBranchesFound];
          return;
        }
        assert trace == askSource + askDestinations + [fetch];
      }
      trace := trace + [SelectDestinations(Without(branches, sourceBranch), saved.destinations)];
      destinationBranches := answers.destinations;
    }
    ghost var resolved := trace;
    assert destinationBranches == ResolvedDestinations(saved, answers);
    trace := trace + [SaveSource(repo, sourceBranch), SaveDestinations(repo, destinationBranches)];
    var created := CreateEach(workspace, repo, sourceBranch, destinationBranches, replies);
    trace := trace + created;
    assert trace == resolved + ([SaveSource(repo, source), SaveDestinations(repo, destinationBranches)]
      + Creates(workspace, repo, source, destinationBranches, replies));
  }

  /** The number of branch listings in a trace. */
  function Fetches(t: seq<Effect>): nat {
    if t == [] then 0 else (if t[0].FetchBranches? then 1 else 0) + Fetches(t[1..])
  }

  lemma {:induction false} NoFetch(t: seq<Effect>)
    requires forall j :: 0 <= j < |t| ==> !t[j].FetchBranches?
    ensures Fetches(t) == 0
  {
    if t != [] {
      NoFetch(t[1..]);
    }
  }

  lemma {:induction false} SingleFetch(t: seq<Effect>, i: nat)
    requires i < |t| && t[i].FetchBranches?
    requires forall j :: 0 <= j < |t| && j != i ==> !t[j].FetchBranches?
    ensures Fetches(t) == 1
  {
    if i == 0 {
      NoFetch(t[1..]);
    } else {
      SingleFetch(t[1..], i - 1);
    }
  }

  /** Every destination gets its own create call, in order, whatever the replies to
      the others were: a failed create never stops the ones after it. */
  lemma {:induction false} EveryDestinationAttempted(workspace: string, repo: string, source: string,
                                                     destinations: seq<string>, replies: nat -> Response<string>)
    ensures |Creates(workspace, repo, source, destinations, replies)| == |destinations|
    ensures forall k :: 0 <= k < |destinations| ==>
      Creates(workspace, repo, source, destinations, replies)[k]
        == Create(CreateBitbucketPR(workspace, repo, source, destinations[k], replies(k)))
  {
    if destinations != [] {
      var n := |destinations| - 1;
      EveryDestinationAttempted(workspace, repo, source, destinations[..n], replies);
    }
  }

  /** The branch list is fetched at most once per run, and not at all exactly when
      both saved selections are reused. When the saved source is not reused, the
      fetch comes first, right after the source confirmation. */
  lemma FetchAtMostOnce(workspace: string, repo: string, saved: Saved, answers: Answers,
                        pages: seq<PageResult>, replies: nat -> Response<string>)
    ensures var t := Run(workspace, repo, saved, answers, pages, replies);
      Fetches(t) == if ReusesSource(saved, answers) && ReusesDestinations(saved, answers) then 0 else 1
    ensures var t := Run(workspace, repo, saved, answers, pages, replies);
      !ReusesSource(saved, answers) ==> t[if saved.source != "" then 1 else 0].FetchBranches?
  {
    var t := Run(workspace, repo, saved, answers, pages, replies);
    EveryDestinationAttempted(workspace, repo, ResolvedSource(saved, answers),
                              ResolvedDestinations(saved, answers), replies);
    if ReusesSource(saved, answers) && ReusesDestinations(saved, answers) {
      NoFetch(t);
    } else if ReusesSource(saved, answers) {
      SingleFetch(t, (if saved.source != "" then 1 else 0) + (if saved.destinations != [] then 1 else 0));
    } else {
      SingleFetch(t, if saved.source != "" then 1 else 0);
    }
  }

  /** A fetch that yields no branches ends the run at once: "No branches found" is
      the last effect, and nothing is saved or created. */
  lemma EmptyListingAborts(workspace: string, repo: string, saved: Saved, answers: Answers,
                           pages: seq<PageResult>, replies: nat -> Response<string>)
    requires !(ReusesSource(saved, answers) && ReusesDestinations(saved, answers))
    requires Paginate(pages) == []
    ensures var t := Run(workspace, repo, saved, answers, pages, replies);
      && |t| > 0
      && t[|t| - 1] == NoBranchesFound
      && forall i :: 0 <= i < |t| ==> !t[i].SaveSource? && !t[i].SaveDestinations? && !t[i].Create?
  {
  }

  /** The effects of a run that does not abort, before it saves: the prompts and
      the fetch. */
  function Prelude(workspace: string, repo: string, saved: Saved, answers: Answers,
                   pages: seq<PageResult>): seq<Effect>
  {
    var branches := Paginate(pages);
    var fetch := FetchBranches(Requests(FirstPageUrl(workspace, repo), pages));
    var askSource := if saved.source != "" then [ConfirmSourceReuse(saved.source)] else [];
    var askDestinations :=
      if saved.destinations != [] then [ConfirmDestinationReuse(saved.destinations)] else [];
    var select := SelectDestinations(Without(branches, ResolvedSource(saved, answers)), saved.destinations);
    var sourceStep :=
      if ReusesSource(saved, answers) then askSource else askSource + [fetch, SelectSource(branches)];
    var destinationStep :=
      if ReusesDestinations(saved, answers) then []
      else if ReusesSource(saved, answers) then [fetch, select]
      else [select];
    sourceStep + askDestinations + destinationStep
  }

  lemma RunLayout(workspace: string, repo: string, saved: Saved, answers: Answers,
                  pages: seq<PageResult>, replies: nat -> Response<string>)
    requires (ReusesSource(saved, answers) && ReusesDestinations(saved, answers)) || Paginate(pages) != []
    ensures var source := ResolvedSource(saved, answers);
      var destinations := ResolvedDestinations(saved, answers);
      Run(workspace, repo, saved, answers, pages, replies)
        == Prelude(workspace, repo, saved, answers, pages)
           + [SaveSource(repo, source), SaveDestinations(repo, destinations)]
           + Creates(workspace, repo, source, destinations, replies)
  {
  }

  lemma PreludeSavesNothing(workspace: string, repo: string, saved: Saved, answers: Answers,
                            pages: seq<PageResult>)
    ensures var pre := Prelude(workspace, repo, saved, answers, pages);
      forall i :: 0 <= i < |pre| ==> !pre[i].SaveSource? && !pre[i].SaveDestinations? && !pre[i].Create?
  {
  }

  /** A run that does not abort saves the source and destinations it resolved,
      both before the first create and nowhere else, then issues exactly one create
      per resolved destination, in order, each from the saved source. */
  lemma SavesThenCreates(workspace: string, repo: string, saved: Saved, answers: Answers,
                         pages: seq<PageResult>, replies: nat -> Response<string>)
    requires (ReusesSource(saved, answers) && ReusesDestinations(saved, answers)) || Paginate(pages) != []
    ensures var t := Run(workspace, repo, saved, answers, pages, replies);
      var source := ResolvedSource(saved, answers);
      var destinations := ResolvedDestinations(saved, answers);
      var n := |destinations|;
      && |t| >= n + 2
      && t[|t| - n - 2] == SaveSource(repo, source)
      && t[|t| - n - 1] == SaveDestinations(repo, destinations)
      && (forall i :: 0 <= i < |t| - n - 2 ==> !t[i].SaveSource? && !t[i].SaveDestinations? && !t[i].Create?)
      && (forall k :: 0 <= k < n ==>
            t[|t| - n + k] == Create(CreateBitbucketPR(workspace, repo, source, destinations[k], replies(k))))
  {
    var source := ResolvedSource(saved, answers);
    var destinations := ResolvedDestinations(saved, answers);
    RunLayout(workspace, repo, saved, answers, pages, replies);
    PreludeSavesNothing(workspace, repo, saved, answers, pages);
    EveryDestinationAttempted(workspace, repo, source, destinations, replies);
    var pre := Prelude(workspace, repo, saved, answers, pages);
    var t := Run(workspace, repo, saved, answers, pages, replies);
    var n := |destinations|;
    assert |t| == |pre| + 2 + n;
    assert forall i :: 0 <= i < |pre| ==> t[i] == pre[i];
  }

  /** The destination prompt offers the fetched branches other than the source,
      in their order, preselecting the saved set; it is shown only when the saved
      set is not reused. */
  lemma DestinationChoicesExcludeSource(workspace: string, repo: string, saved: Saved, answers: Answers,
                                        pages: seq<PageResult>, replies: nat -> Response<string>)
    ensures var t := Run(workspace, repo, saved, answers, pages, replies);
      forall i :: 0 <= i < |t| && t[i].SelectDestinations? ==>
        && !ReusesDestinations(saved, answers)
        && t[i].choices == Without(Paginate(pages), ResolvedSource(saved, answers))
        && ResolvedSource(saved, answers) !in t[i].choices
        && t[i].preselected == saved.destinations
  {
    EveryDestinationAttempted(workspace, repo, ResolvedSource(saved, answers),
                              ResolvedDestinations(saved, answers), replies);
  }

  /** Within a trace whose creates are the last `|destinations|` effects, every
      create is one of those destinations, from `source`. */
  lemma CreatesFromSuffix(workspace: string, repo: string, t: seq<Effect>, source: string,
                          destinations: seq<string>, replies: nat -> Response<string>)
    requires |t| >= |destinations| + 2
    requires forall i :: 0 <= i < |t| - |destinations| ==> !t[i].Create?
    requires forall k :: 0 <= k < |destinations| ==>
      t[|t| - |destinations| + k] == Create(CreateBitbucketPR(workspace, repo, source, destinations[k], replies(k)))
    ensures forall i :: 0 <= i < |t| && t[i].Create? ==>
      t[i].call.body.source == source && t[i].call.body.destination in destinations
  {
    var n := |destinations|;
    forall i | 0 <= i < |t| && t[i].Create?
      ensures t[i].call.body.source == source && t[i].call.body.destination in destinations
    {
      var k := i - (|t| - n);
      assert t[|t| - n + k] == Create(CreateBitbucketPR(workspace, repo, source, destinations[k], replies(k)));
    }
  }

  /** On the selection path the run creates at least one pull request, and each
      one goes into a fetched branch other than its source. The reuse path applies
      no such filter. */
  lemma SelectedDestinationsExcludeSource(workspace: string, repo: string, saved: Saved, answers: Answers,
                                          pages: seq<PageResult>, replies: nat -> Response<string>)
    requires AnswersFit(saved, answers, Paginate(pages))
    requires !ReusesDestinations(saved, answers) && Paginate(pages) != []
    ensures var t := Run(workspace, repo, saved, answers, pages, replies);
      && (exists i :: 0 <= i < |t| && t[i].Create?)
      && forall i :: 0 <= i < |t| && t[i].Create? ==>
           && t[i].call.body.destination in Paginate(pages)
           && t[i].call.body.destination != t[i].call.body.source
  {
    var t := Run(workspace, repo, saved, answers, pages, replies);
    var source := ResolvedSource(saved, answers);
    var destinations := ResolvedDestinations(saved, answers);
    var n := |destinations|;
    SavesThenCreates(workspace, repo, saved, answers, pages, replies);
    assert t[|t| - n - 2].SaveSource? && t[|t| - n - 1].SaveDestinations?;
    CreatesFromSuffix(workspace, repo, t, source, destinations, replies);
    assert t[|t| - n + 0] == Create(CreateBitbucketPR(workspace, repo, source, destinations[0], replies(0)));
  }

  /** The replies to the create calls fill in the outcomes and change nothing
      else: the same effects, the same requests, in the same order. */
  lemma RepliesOnlyFillOutcomes(workspace: string, repo: string, saved: Saved, answers: Answers,
                                pages: seq<PageResult>, replies1: nat -> Response<string>,
                                replies2: nat -> Response<string>)
    ensures var t1 := Run(workspace, repo, saved, answers, pages, replies1);
      var t2 := Run(workspace, repo, saved, answers, pages, replies2);
      && |t1| == |t2|
      && forall i :: 0 <= i < |t1| ==>
           && (t1[i].Create? <==> t2[i].Create?)
           && (t1[i].Create? ==> t1[i].call.path == t2[i].call.path && t1[i].call.body == t2[i].call.body)
           && (!t1[i].Create? ==> t1[i] == t2[i])
  {
    var source := ResolvedSource(saved, answers);
    var destinations := ResolvedDestinations(saved, answers);
    EveryDestinationAttempted(workspace, repo, source, destinations, replies1);
    EveryDestinationAttempted(workspace, repo, source, destinations, replies2);
  }

  /** Both saved selections confirmed: no fetch, the saved values saved back
      verbatim, and one create from the saved source to each saved destination. */
  lemma ReuseBoth(workspace: string, repo: string, saved: Saved, answers: Answers,
                  pages: seq<PageResult>, replies: nat -> Response<string>)
    requires ReusesSource(saved, answers) && ReusesDestinations(saved, answers)
    ensures Run(workspace, repo, saved, answers, pages, replies)
      == [ConfirmSourceReuse(saved.source), ConfirmDestinationReuse(saved.destinations),
          SaveSource(repo, saved.source), SaveDestinations(repo, saved.destinations)]
         + Creates(workspace, repo, saved.source, saved.destinations, replies)
  {
  }

  /** Repository "svc-api" with saved source "develop" and saved destinations
      "staging" and "prod", both reuses confirmed: no listing, and exactly two
      creates, develop into staging, then develop into prod. */
  lemma ReuseScenario(replies: nat -> Response<string>)
    ensures var t := Run("team", "svc-api", Saved("develop", ["staging", "prod"]),
                         Answers(true, "", true, []), [], replies);
      && Fetches(t) == 0
      && |t| == 6
      && t[4].Create? && t[4].call.body.source == "develop" && t[4].call.body.destination == "staging"
      && t[5].Create? && t[5].call.body.source == "develop" && t[5].call.body.destination == "prod"
  {
    var saved := Saved("develop", ["staging", "prod"]);
    var answers := Answers(true, "", true, []);
    FetchAtMostOnce("team", "svc-api", saved, answers, [], replies);
    ReuseBoth("team", "svc-api", saved, answers, [], replies);
    EveryDestinationAttempted("team", "svc-api", "develop", ["staging", "prod"], replies);
  }

  /** Nothing saved and a listing whose only page is empty: one request, "No
      branches found", and nothing else. */
  lemma EmptyListingScenario(answers: Answers, replies: nat -> Response<string>)
    ensures Run("team", "svc-api", Saved("", []), answers, [Page([], "")], replies)
      == [FetchBranches([FirstPageUrl("team", "svc-api")]), NoBranchesFound]
  {
  }
}
