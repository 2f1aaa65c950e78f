/** The branch lister of branch.js: a single-page listing and the paginated
    listing that follows `next` cursors, accumulating branch names. The service is
    an oracle: `pages[k]` is its answer to the k-th page request of one listing. */
module Branch {
  import opened Remote

  /** One entry of a page's `values`; only its name is used. */
  datatype BranchRef = BranchRef(name: string)

  /** The answer to one page request: the page's `values` and its `next` cursor, or
      a fault. A `next` of "" stands for every falsy cursor (absent, null or empty),
      all of which end the listing. */
  datatype PageResult = Page(values: seq<BranchRef>, next: string) | PageFailed(fault: Fault)

  /** The request for the first page of a repository's branches. */
  function FirstPageUrl(workspace: string, repo: string): (url: string)
    ensures url != ""
  {
    RepositoryPath(workspace, repo) + "/refs/branches?pagelen=50"
  }

  /** `values.map((branch) => branch.name)`. */
  function Names(values: seq<BranchRef>): (names: seq<string>)
    ensures |names| == |values|
    ensures forall i :: 0 <= i < |values| ==> names[i] == values[i].name
  {
    if values == [] then [] else [values[0].name] + Names(values[1..])
  }

  /** The names one page answer contributes: its entries' names, none when the
      request failed. */
  function PageNames(reply: PageResult): seq<string> {
    match reply
    case Page(values, _) => Names(values)
    case PageFailed(_) => []
  }

  /** The requests a listing issued and the names it returned. */
  datatype BranchListing = BranchListing(names: seq<string>, requests: seq<string>)

  /** getBranches: exactly one request, for the first page; the names on that page,
      `[]` when it fails; the `next` cursor is never followed. */
  function GetBranches(workspace: string, repo: string, reply: PageResult): (listing: BranchListing)
    ensures listing.requests == [FirstPageUrl(workspace, repo)]
    ensures reply.PageFailed? ==> listing.names == []
    ensures reply.Page? ==>
      && |listing.names| == |reply.values|
      && forall i :: 0 <= i < |reply.values| ==> listing.names[i] == reply.values[i].name
  {
    BranchListing(PageNames(reply), [FirstPageUrl(workspace, repo)])
  }

  /** An answer after which the paginated listing requests nothing more. */
  predicate Stops(reply: PageResult) {
    reply.PageFailed? || reply.next == ""
  }

  /** The oracle answers until the listing stops: the remote branch set is finite. */
  predicate Ends(pages: seq<PageResult>) {
    |pages| > 0 && (Stops(pages[0]) || Ends(pages[1..]))
  }

  /** The index of the last page the listing requests. */
  function StopIndex(pages: seq<PageResult>): (k: nat)
    requires Ends(pages)
    ensures k < |pages| && Stops(pages[k])
    ensures forall j :: 0 <= j < k ==> !Stops(pages[j])
  {
    if Stops(pages[0]) then 0 else 1 + StopIndex(pages[1..])
  }

  /** The names fetchBranchesPaginated returns, page by page. */
  function Paginate(pages: seq<PageResult>): seq<string> {
    if pages == [] then []
    else if Stops(pages[0]) then PageNames(pages[0])
    else PageNames(pages[0]) + Paginate(pages[1..])
  }

  /** The requests the listing issues, starting from `url`. */
  function Requests(url: string, pages: seq<PageResult>): seq<string>
    decreases |pages|
  {
    if pages == [] || Stops(pages[0]) then [url]
    else [url] + Requests(pages[0].next, pages[1..])
  }

  /** The names of a run of pages, concatenated in page order; a failed page
      contributes none. */
  function Concat(pages: seq<PageResult>): seq<string> {
    if pages == [] then [] else PageNames(pages[0]) + Concat(pages[1..])
  }

  /** The number of entries on the pages that succeeded. */
  function ValueCount(pages: seq<PageResult>): nat {
    if pages == [] then 0
    else (if pages[0].Page? then |pages[0].values| else 0) + ValueCount(pages[1..])
  }

  /** fetchBranchesPaginated: request pages, following `next`, until a page has no
      `next` or a request fails, and return the names accumulated so far. */
  method FetchBranchesPaginated(workspace: string, repo: string, pages: seq<PageResult>)
    returns (branches: seq<string>, requested: seq<string>)
    requires Ends(pages)
    ensures branches == Paginate(pages)
    ensures requested == Requests(FirstPageUrl(workspace, repo), pages)
    ensures pages[0].PageFailed? ==> branches == [] && |requested| == 1
  {
    branches := [];
    requested := [];
    var nextPageUrl := FirstPageUrl(workspace, repo);
    var i := 0;
    while nextPageUrl != ""
      invariant 0 <= i <= |pages|
      invariant nextPageUrl != "" ==> Ends(pages[i..])
      invariant nextPageUrl != "" ==> branches + Paginate(pages[i..]) == Paginate(pages)
      invariant nextPageUrl != "" ==>
        requested + Requests(nextPageUrl, pages[i..]) == Requests(FirstPageUrl(workspace, repo), pages)
      invariant nextPageUrl == "" ==>
        branches == Paginate(pages) && requested == Requests(FirstPageUrl(workspace, repo), pages)
      invariant i == 0 ==> branches == [] && requested == [] && nextPageUrl != ""
      decreases |pages| - i
    {
      requested := requested + [nextPageUrl];
      var response := pages[i];
      if response.PageFailed? {
        break;
      }
      assert pages[i..][1..] == pages[i + 1..];
      branches := branches + Names(response.values);
      nextPageUrl := response.next;
      i := i + 1;
    }
  }

  /** The result is the concatenation, in page order, of the names on every page
      up to the one that stopped the listing. */
  lemma {:induction false} PaginateIsConcat(pages: seq<PageResult>)
    requires Ends(pages)
    ensures Paginate(pages) == Concat(pages[..StopIndex(pages) + 1])
  {
    if Stops(pages[0]) {
      assert pages[..1] == [pages[0]];
      assert Concat(pages[..1]) == PageNames(pages[0]) + Concat([]);
    } else {
      var k := StopIndex(pages);
      PaginateIsConcat(pages[1..]);
      assert pages[..k + 1][1..] == pages[1..][..k];
      assert pages[..k + 1][0] == pages[0];
    }
  }

  lemma {:induction false} ConcatAppend(a: seq<PageResult>, b: seq<PageResult>)
    ensures Concat(a + b) == Concat(a) + Concat(b)
  {
    if a == [] {
      assert a + b == b;
    } else {
      assert (a + b)[0] == a[0];
      assert (a + b)[1..] == a[1..] + b;
      ConcatAppend(a[1..], b);
    }
  }

  /** Partial result on failure: when a request fails, the result is exactly the
      names from the pages that succeeded before it. */
  lemma PartialResultOnFailure(pages: seq<PageResult>)
    requires Ends(pages)
    requires pages[StopIndex(pages)].PageFailed?
    ensures Paginate(pages) == Concat(pages[..StopIndex(pages)])
  {
    var k := StopIndex(pages);
    PaginateIsConcat(pages);
    assert pages[..k + 1] == pages[..k] + [pages[k]];
    ConcatAppend(pages[..k], [pages[k]]);
    assert Concat([pages[k]]) == [] + Concat([]);
  }

  lemma {:induction false} ConcatLength(pages: seq<PageResult>)
    ensures |Concat(pages)| == ValueCount(pages)
  {
    if pages != [] {
      ConcatLength(pages[1..]);
    }
  }

  /** Each page that succeeded adds exactly its number of entries: no entry is
      dropped or merged with a duplicate. */
  lemma PaginateLength(pages: seq<PageResult>)
    requires Ends(pages)
    ensures |Paginate(pages)| == ValueCount(pages[..StopIndex(pages) + 1])
  {
    PaginateIsConcat(pages);
    ConcatLength(pages[..StopIndex(pages) + 1]);
  }

  /** The first request is for the first page; each later one is the previous
      page's `next`; the one that stops the listing is the last. */
  lemma {:induction false} RequestsFollowCursor(url: string, pages: seq<PageResult>)
    requires Ends(pages)
    ensures |Requests(url, pages)| == StopIndex(pages) + 1
    ensures Requests(url, pages)[0] == url
    ensures forall k :: 0 <= k < StopIndex(pages) ==> Requests(url, pages)[k + 1] == pages[k].next
    decreases |pages|
  {
    if !Stops(pages[0]) {
      RequestsFollowCursor(pages[0].next, pages[1..]);
    }
  }

  /** Nothing after the stopping page is ever requested: whatever the service would
      have answered later changes neither the requests nor the result. */
  lemma {:induction false} LaterAnswersIgnored(pages: seq<PageResult>, later: seq<PageResult>, url: string)
    requires Ends(pages)
    ensures Paginate(pages[..StopIndex(pages) + 1] + later) == Paginate(pages)
    ensures Requests(url, pages[..StopIndex(pages) + 1] + later) == Requests(url, pages)
    decreases |pages|
  {
    var k := StopIndex(pages);
    var cut := pages[..k + 1] + later;
    assert cut[0] == pages[0];
    if !Stops(pages[0]) {
      LaterAnswersIgnored(pages[1..], later, pages[0].next);
      assert cut[1..] == pages[1..][..k] + later;
    }
  }

  /** The single-page listing issues the first request of the paginated one and
      returns the first page of its result, and all of it when that page has no
      `next` or fails. */
  lemma GetBranchesIsFirstPage(workspace: string, repo: string, pages: seq<PageResult>)
    requires pages != []
    ensures var single := GetBranches(workspace, repo, pages[0]);
      && single.names <= Paginate(pages)
      && single.requests <= Requests(FirstPageUrl(workspace, repo), pages)
      && (Stops(pages[0]) ==>
            single.names == Paginate(pages) && single.requests == Requests(FirstPageUrl(workspace, repo), pages))
  {
  }
}
