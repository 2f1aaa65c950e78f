# Bitbucket pull-request CLI: the workflow core in Dafny

This project models the decision and accumulation logic of a command-line client
for Bitbucket pull requests. The client itself is interactive prompt and HTTP glue:

- it lists, merges and creates pull requests;
- it keeps a list of saved repositories;
- it remembers, per repository, the source and destination branches last used.

The model turns every prompt answer and every service reply into a plain input.
Each operation then becomes a deterministic function or loop, and its effects are
written down and proved.

- `Remote` (remote.dfy): a service reply is `Ok(data)` or `Failed(fault)`. The
  reported error text is the service's own message when it sent one, otherwise
  the transport's message. The decimal rendering of a pull request id reads back
  as the same number.
- `Branch` (branch.dfy): the branch listing of branch.js.
  - The service is a finite sequence of page answers (`Page(values, next)` or
    `PageFailed`).
  - `FetchBranchesPaginated` is the `while` loop of the source. It follows `next`,
    appends each page's names, and stops at the first page without `next` or the
    first failure. It returns what it has accumulated and the requests it issued.
  - `GetBranches` is the single-page variant.
- `PullRequest` (pull_request.dfy): the requests and results of `listPullRequests`,
  `mergePullRequest` and `createBitbucketPR`. This covers the fixed title and
  description template, `close_source_branch: false`, the `merge_commit` strategy
  with its default message, and `[]` or `null` on failure.
- `CreateWorkflow` (create_workflow.dfy): `createPullRequest` as a method that
  returns its effect trace. The trace records confirmations, the branch listing,
  selection prompts, `saveSourceBranch` and `saveDestinationBranches`, and one
  create call per destination. The method is proved equal to the specification
  function `Run`, and the lemmas about `Run` state what a run does.
- `Repository` (repository.dfy): a `Config` class whose `repos` field is changed in
  place by add (`push`) and remove (`filter`). It also logs the list as each
  `saveConfig` call writes it. `ManageRepositories` is the menu, recursive as in
  the source. `PreCheckRepository` is the selection with its `"addNew"` path.
- `Lists` (lists.dfy): `Without`, the `filter((y) => y !== x)` that the source
  uses both to remove a repository and to exclude the source branch from the
  destination choices.

Points where the model follows the code closely:

- Saved repository names are not kept unique. Add appends without a duplicate
  check (repository.js:43, 91), and `AddThenRemove` states the consequence.
- The destinations are used in the order the checkbox prompt returns them.
- With no saved repositories, `preCheckRepository` returns the result of
  `manageRepositories`. That function returns `undefined` on every path
  (repository.js:50-52, 115-117). `PreCheckRepository` therefore yields `None`
  there even after a repository has been added.

## Model

| member | source | states |
|---|---|---|
| `Lists.Without` | pullRequest.js:184 | the filtered list holds exactly the elements other than the excluded value, and is never longer |
| `Lists.WithoutAppend` | repository.js:109 | filtering is piecewise over concatenation, so the kept entries stay in their original order |
| `Lists.WithoutMultiset` | repository.js:109 | removing a name drops every copy of it and keeps every other entry with its multiplicity |
| `Lists.WithoutAbsent` | repository.js:109 | removing a name that is not in the list leaves the list unchanged |
| `Remote.ErrorMessage` | pullRequest.js:60 | the reported error is the service's message when present, else the transport message; it is empty only if both are |
| `Remote.NatToString` | pullRequest.js:82 | a pull request id renders as non-empty decimal digits, with no leading zero, that read back as the id |
| `Branch.Names` | branch.js:22 | the mapped names have one entry per page value, in order, each being that value's `name` |
| `Branch.StopIndex` | branch.js:19-29 | the last page requested is the first that fails or has no `next`; every earlier page has a `next` |
| `Branch.FetchBranchesPaginated` | branch.js:15-33 | the loop returns the paginated names and issues exactly the cursor-following requests; if the first page fails it returns `[]` after one request |
| `Branch.PaginateIsConcat` | branch.js:19-22 | the result is the concatenation, in page order, of the names on every page fetched up to the stop |
| `Branch.PartialResultOnFailure` | branch.js:26-32 | when a request fails, the result is exactly the names from the pages that succeeded before it |
| `Branch.PaginateLength` | branch.js:22 | the result length is the total number of values on the successful pages (nothing dropped or deduplicated) |
| `Branch.RequestsFollowCursor` | branch.js:17-25 | the first request is the `?pagelen=50` branches URL, each later one is the previous page's `next`, and nothing follows the stopping page |
| `Branch.LaterAnswersIgnored` | branch.js:25-29 | answers after the stopping page influence neither the result nor the requests |
| `Branch.GetBranches` | branch.js:3-13 | one request, to the `?pagelen=50` branches URL; the names of that page's values, one per value and in order, or `[]` when the request fails |
| `Branch.GetBranchesIsFirstPage` | branch.js:3-13 | the single-page names and requests are prefixes of the paginated ones, and equal to them when the first page fails or has no `next` |
| `PullRequest.ListPullRequests` | pullRequest.js:23-65 | lists the given state; returns the service's pull requests, `[]` on failure; an empty listing is an informational report, not an error |
| `PullRequest.NoOpenPullRequests` | pullRequest.js:23-43 | with no state given the listing asks for `OPEN`; an empty answer gives `[]` and the informational report for that state |
| `PullRequest.MergeMessage` | pullRequest.js:82 | the merge message is never empty: the caller's message, or `Merged pull request #<id> via CLI` with digits that read back as the id |
| `PullRequest.MergePullRequest` | pullRequest.js:68-98 | posts to the pull request's merge path with strategy `merge_commit`; returns the response data on success and `null` with the error message on failure |
| `PullRequest.CreateBitbucketPR` | pullRequest.js:203-233 | one POST with the given branches, the fixed title template and description, and `close_source_branch` false; reports the link or the error message and never fails |
| `PullRequest.TitleNamesBranches` | pullRequest.js:218 | the title embeds the source, then the destination, at fixed offsets, with a fixed 27 characters of template around them |
| `CreateWorkflow.CreateEach` | pullRequest.js:197-199 | the loop issues the create calls for the destinations, in order |
| `CreateWorkflow.CreatePullRequest` | pullRequest.js:100-201 | the step-by-step run produces exactly the effect trace `Run` describes |
| `CreateWorkflow.EveryDestinationAttempted` | pullRequest.js:197-199 | N destinations give exactly N create calls, the k-th for the k-th destination, whatever the replies to the others |
| `CreateWorkflow.FetchAtMostOnce` | pullRequest.js:122-177 | a run lists branches at most once; it skips the listing exactly when both saved selections are reused; the listing comes first when the source is not reused |
| `CreateWorkflow.EmptyListingAborts` | pullRequest.js:125-128 | a listing with no branches ends the run with "No branches found"; nothing is saved or created |
| `CreateWorkflow.SavesThenCreates` | pullRequest.js:161-199 | a completed run saves the resolved source and destinations just before the creates and nowhere else, then creates one pull request per destination from that source, in order |
| `CreateWorkflow.DestinationChoicesExcludeSource` | pullRequest.js:179-192 | the destination prompt appears only when saved destinations are not reused; it offers the fetched branches minus the source, in order, preselecting the saved set |
| `CreateWorkflow.SelectedDestinationsExcludeSource` | pullRequest.js:179-199 | on the selection path a run creates at least one pull request, and every create call goes into a fetched branch different from its source |
| `CreateWorkflow.RepliesOnlyFillOutcomes` | pullRequest.js:214-232 | create replies, failures included, change only the create outcomes: the same effects and requests occur in the same order |
| `CreateWorkflow.ReuseBoth` | pullRequest.js:111-167 | with both reuses confirmed, the run is two confirmations, the saved values saved back verbatim, and one create per saved destination from the saved source |
| `CreateWorkflow.ReuseScenario` | pullRequest.js:143-167 | saved `develop` into `staging` and `prod`, both reused: no listing, then exactly the creates develop→staging and develop→prod |
| `CreateWorkflow.EmptyListingScenario` | pullRequest.js:122-128 | with nothing saved, a listing whose only page is empty gives one request, then "No branches found", and nothing else |
| `Repository.MenuPersistsFinalList` | repository.js:80-113 | after a menu session the last list saved is the final list; a session that saves nothing changes nothing |
| `Repository.MenuSavesPerEdit` | repository.js:75-113 | the list is saved once per add and once per remove from a non-empty list, never for list, back, or remove on an empty list |
| `Repository.AddThenRemove` | repository.js:91-109 | adding does not deduplicate (the name gains a copy); a later remove of that name removes every copy |
| `Repository.Config.AddRepository` | repository.js:91-92 | appends the name to the end of `config.repos`, then saves the new list |
| `Repository.Config.ManageRepositories` | repository.js:56-118 | initialises an absent list to `[]`, applies each menu answer in place until "Go Back", and saves exactly the lists `Menu` gives |
| `Repository.Config.PreCheckRepository` | repository.js:17-54 | with saved repositories it returns the selected one, or for `"addNew"` the newly appended and saved name; with none it runs the menu and returns `undefined` |

## Left out

- config.js is not part of this model. That covers JSON file I/O, Basic-auth
  client construction and the credential prompts. `saveConfig` appears only as
  the `persisted` log of `Repository.Config`.
- `getSourceBranch`, `getDestinationBranches`, `saveSourceBranch` and
  `saveDestinationBranches` are imported from config.js, which does not define them.
  The saved values are inputs (`Saved`), and the saves are trace effects. No
  overwrite or uniqueness semantics are claimed for the store.
- index.js is not part of this model. That covers the main menu, flag parsing,
  `process.exit` and the batch-merge `for…of` loop over `mergePullRequest`, which
  adds nothing beyond the merge itself.
- Console text, spinners and colours are left out. Reports are datatypes, so for
  example `state.toLowerCase()` in "No open pull requests found." is not
  modelled. The branch listing's failure warning is not in the model either.
- HTTP transport and `async`/`await` are left out: the code is strictly
  sequential. Every remote call is an oracle input.
- CreateWorkflow.CreatePullRequest: the repository is a parameter. The call to
  `preCheckRepository` at the start of `createPullRequest` is modelled on its own
  in `Repository`. The model does not follow the source into a run whose
  repository is `undefined`.
- CreateWorkflow.CreatePullRequest: every listing in one run reads the same page
  oracle. This loses nothing, because a run lists branches at most once
  (`FetchAtMostOnce`).
- CreateWorkflow.CreatePullRequest: the prompt answers are fixed before the run,
  and `AnswersFit` requires what the prompts admit. A run whose destination
  prompt has no choices, because every fetched branch equals the source, can
  never pass the prompt's validation in the source. `AnswersFit` therefore
  excludes that run.
- Branch.FetchBranchesPaginated: `Ends` requires that some page eventually fails
  or has no `next`. A service whose cursors never end would keep the source's
  loop running forever, and that case is not modelled.
- Repository.Config.ManageRepositories: a remove answer may be any name. The
  prompt offers only saved names, and a name that is not saved removes nothing.
