/**
  What the fetchers see of the GitHub API (github/repos.go, github/pulls.go,
  github/discussions.go): the remote item types they read, the errors they
  return, and list endpoints that answer page by page. A list call is
  modelled by the sequence of responses the server gives to successive
  requests; each response carries its items, the next page number (0 when
  there is none) and possibly an error.
*/
module Remote {
  import opened Wrappers
  import opened Strings
  import opened Calendar

  /** The `context.Context` argument: only whether it is nil matters here. */
  datatype Context = NilContext | Background

  datatype ApiError = ApiError(message: string)

  /** The errors the fetchers return, with the texts they carry. */
  datatype FetchError =
    | ContextNil
    | UrlEmpty
    | UrlInvalid(message: string)
    | InvalidRepositoryUrl
    | TeamIdMissing
    | Api(cause: ApiError)
  {
    function Message(): string {
      match this
      case ContextNil => "context is nil"
      case UrlEmpty => "repositoryURL is nil"
      case UrlInvalid(message) => message
      case InvalidRepositoryUrl => "invalid repository url"
      case TeamIdMissing => "TeamID is missing"
      case Api(cause) => cause.message
    }
  }

  /** The reaction counters of a comment. */
  datatype Reactions = Reactions(
    totalCount: int,
    plusOne: int,
    minusOne: int,
    laugh: int,
    confused: int,
    heart: int,
    hooray: int)

  /** A repository event; createdAt is its calendar day. */
  datatype Event = Event(actorLogin: string, repoName: string, eventType: string, createdAt: ValidDate, rawPayload: string)

  datatype PullRequestComment = PullRequestComment(
    id: int,
    body: string,
    userLogin: string,
    reactions: Reactions,
    createdAt: ValidDate)

  datatype Team = Team(name: string, id: int)

  datatype TeamDiscussion = TeamDiscussion(number: int, title: string)

  datatype TeamDiscussionComment = TeamDiscussionComment(
    authorLogin: string,
    body: string,
    reactions: Reactions,
    createdAt: ValidDate)

  /** One response of a list endpoint. */
  datatype Page<T> = Page(items: seq<T>, nextPage: nat, err: Option<ApiError>)

  /** The `page`/`per_page` query of a list request. */
  datatype ListOptions = ListOptions(page: nat, perPage: nat)

  /** A response after which the loop asks for nothing more. */
  predicate Ends<T>(p: Page<T>) {
    p.err.Some? || p.nextPage == 0
  }

  /** The server eventually answers with an error or without a next page. */
  predicate Terminates<T>(pages: seq<Page<T>>) {
    exists i :: 0 <= i < |pages| && Ends(pages[i])
  }

  /** The index of the last response the loop reads. */
  function EndIndex<T>(pages: seq<Page<T>>): (k: nat)
    requires Terminates(pages)
    ensures k < |pages| && Ends(pages[k])
    ensures forall i :: 0 <= i < k ==> !Ends(pages[i])
  {
    if Ends(pages[0]) then 0
    else
      assert Terminates(pages[1..]) by {
        var i :| 0 <= i < |pages| && Ends(pages[i]);
        assert pages[1..][i - 1] == pages[i];
      }
      1 + EndIndex(pages[1..])
  }

  /** The items of the given responses, in page order. */
  function Flatten<T>(pages: seq<Page<T>>): seq<T> {
    if pages == [] then [] else Flatten(pages[..|pages| - 1]) + pages[|pages| - 1].items
  }

  function PageSizes<T>(pages: seq<Page<T>>): nat {
    if pages == [] then 0 else PageSizes(pages[..|pages| - 1]) + |pages[|pages| - 1].items|
  }

  /**
    The outcome of the page loop: the error of the last response read, if
    it has one, and otherwise every item of every response read.
  */
  function Paginate<T>(pages: seq<Page<T>>): (r: Result<seq<T>, ApiError>)
    requires Terminates(pages)
    ensures r.Failure? ==> exists i :: 0 <= i < |pages| && pages[i].err == Some(r.error)
    ensures r.Success? ==> forall i :: 0 <= i <= EndIndex(pages) ==> pages[i].err.None?
  {
    var k := EndIndex(pages);
    if pages[k].err.Some? then Failure(pages[k].err.value) else Success(Flatten(pages[..k + 1]))
  }

  /** The same loop read forwards, one response at a time. */
  function Follow<T>(pages: seq<Page<T>>): Result<seq<T>, ApiError>
    requires Terminates(pages)
  {
    var p := pages[0];
    if p.err.Some? then Failure(p.err.value)
    else if p.nextPage == 0 then Success(p.items)
    else
      assert Terminates(pages[1..]) by {
        var i :| 0 <= i < |pages| && Ends(pages[i]);
        assert pages[1..][i - 1] == pages[i];
      }
      match Follow(pages[1..])
      case Failure(e) => Failure(e)
      case Success(rest) => Success(p.items + rest)
  }

  lemma {:induction false} FlattenCons<T>(p: Page<T>, pages: seq<Page<T>>)
    ensures Flatten([p] + pages) == p.items + Flatten(pages)
  {
    if pages != [] {
      var init := pages[..|pages| - 1];
      FlattenCons(p, init);
      assert ([p] + pages)[..|pages|] == [p] + init;
    }
  }

  /** Reading the responses forwards gives what the loop returns. */
  lemma {:induction false} FollowIsPaginate<T>(pages: seq<Page<T>>)
    requires Terminates(pages)
    ensures Follow(pages) == Paginate(pages)
  {
    var p := pages[0];
    var k := EndIndex(pages);
    if Ends(p) {
      var first := pages[..1];
      assert first[..0] == [];
      assert first[0] == p;
      assert Flatten(first) == p.items;
    } else {
      var rest := pages[1..];
      FollowIsPaginate(rest);
      assert k == 1 + EndIndex(rest);
      assert pages[..k + 1] == [p] + rest[..k];
      FlattenCons(p, rest[..k]);
      assert rest[k - 1] == pages[k];
    }
  }

  /** The loop collects one item per item of every response it reads. */
  lemma {:induction false} FlattenLength<T>(pages: seq<Page<T>>)
    ensures |Flatten(pages)| == PageSizes(pages)
  {
    if pages != [] {
      FlattenLength(pages[..|pages| - 1]);
    }
  }

  /** An item is returned iff some response read before the end carries it. */
  lemma {:induction false} FlattenMembership<T>(pages: seq<Page<T>>, x: T)
    ensures x in Flatten(pages) <==> exists i :: 0 <= i < |pages| && x in pages[i].items
  {
    if pages != [] {
      var init := pages[..|pages| - 1];
      FlattenMembership(init, x);
      if x in pages[|pages| - 1].items {
        assert x in Flatten(pages);
      }
      if exists i :: 0 <= i < |pages| && x in pages[i].items {
        var i :| 0 <= i < |pages| && x in pages[i].items;
        if i < |pages| - 1 {
          assert init[i] == pages[i];
        }
      }
    }
  }

  /** Responses after the one that ends the loop are never looked at. */
  lemma {:induction false} PaginateIgnoresLater<T>(pages: seq<Page<T>>, later: seq<Page<T>>)
    requires Terminates(pages)
    ensures var q := pages[..EndIndex(pages) + 1] + later;
      Terminates(q) && Paginate(q) == Paginate(pages)
  {
    var k := EndIndex(pages);
    var prefix := pages[..k + 1];
    var q := prefix + later;
    assert forall i :: 0 <= i <= k ==> q[i] == pages[i];
    EndIndexUnique(q, k);
    assert q[..k + 1] == prefix;
  }

  /** The first response that ends the loop is the end, whatever follows. */
  lemma {:induction false} EndIndexUnique<T>(pages: seq<Page<T>>, k: nat)
    requires k < |pages| && Ends(pages[k])
    requires forall i :: 0 <= i < k ==> !Ends(pages[i])
    ensures Terminates(pages) && EndIndex(pages) == k
  {
  }

  /** A response that ends the loop, reached without passing the end, is the end. */
  lemma {:induction false} ReachedEnd<T>(pages: seq<Page<T>>, i: nat)
    requires Terminates(pages) && i <= EndIndex(pages) && Ends(pages[i])
    ensures i == EndIndex(pages)
    ensures Paginate(pages) == if pages[i].err.Some? then Failure(pages[i].err.value) else Success(Flatten(pages[..i + 1]))
  {
  }

  /** One more page request: its options follow the response before it. */
  lemma {:induction false} OptionsSentSnoc<T>(perPage: nat, pages: seq<Page<T>>, i: nat)
    requires i <= |pages|
    ensures OptionsSent(perPage, pages, i + 1)
         == OptionsSent(perPage, pages, i) + [ListOptions(if i == 0 then 0 else pages[i - 1].nextPage, perPage)]
  {
  }

  /** One more list request: the options of request i follow the response before it. */
  lemma {:induction false} RequestsSnoc<T>(owner: string, repo: string, perPage: nat, pages: seq<Page<T>>, i: nat)
    requires i <= |pages|
    ensures Requests(owner, repo, perPage, pages, i + 1)
         == Requests(owner, repo, perPage, pages, i) + [Request(owner, repo, ListOptions(if i == 0 then 0 else pages[i - 1].nextPage, perPage))]
  {
  }

  /** `strings.Split(path, "/")`, then `values[1]` and `values[2]` when there are three. */
  function OwnerAndRepo(path: string): (r: Option<(string, string)>)
    ensures r.None? <==> multiset(path)['/'] < 2
    ensures r.Some? ==> '/' !in r.value.0 && '/' !in r.value.1
  {
    var values := Split(path, '/');
    SplitCount(path, '/');
    if |values| < 3 then None else Some((values[1], values[2]))
  }

  /** The path of a repository URL names its owner and repository; what follows is ignored. */
  lemma {:induction false} OwnerAndRepoOfPath(owner: string, repo: string, tail: string)
    requires '/' !in owner && '/' !in repo
    requires tail == "" || tail[0] == '/'
    ensures OwnerAndRepo("/" + owner + "/" + repo + tail) == Some((owner, repo))
  {
    var path := "/" + owner + "/" + repo + tail;
    assert path == "/" + owner + "/" + (repo + tail);
    OwnerPieces(owner, repo + tail);
    var rest := RepoPieces(repo, tail);
    assert Split(path, '/') == [[], owner, repo] + rest;
  }

  lemma {:induction false} OwnerPieces(owner: string, afterOwner: string)
    requires '/' !in owner
    ensures Split("/" + owner + "/" + afterOwner, '/') == [[], owner] + Split(afterOwner, '/')
  {
    var afterRoot := owner + ['/'] + afterOwner;
    assert "/" + owner + "/" + afterOwner == [] + ['/'] + afterRoot;
    SplitAround([], afterRoot, '/');
    assert Split([], '/') == [[]];
    SplitAround(owner, afterOwner, '/');
    SplitNoSeparator(owner, '/');
  }

  lemma {:induction false} RepoPieces(repo: string, tail: string) returns (rest: seq<string>)
    requires '/' !in repo
    requires tail == "" || tail[0] == '/'
    ensures Split(repo + tail, '/') == [repo] + rest
  {
    SplitNoSeparator(repo, '/');
    if tail == "" {
      assert repo + tail == repo;
      rest := [];
    } else {
      assert repo + tail == repo + ['/'] + tail[1..];
      SplitAround(repo, tail[1..], '/');
      rest := Split(tail[1..], '/');
    }
  }

  /** What `url.Parse` made of the repository URL: an error or the URL's path. */
  datatype ParsedUrl = Unparsable(message: string) | Parsed(path: string)

  /** One list request: whose repository, and which page. */
  datatype Request = Request(owner: string, repo: string, options: ListOptions)

  /** The page options the page loop sends: page 0 first, then each response's next page. */
  function OptionsSent<T>(perPage: nat, pages: seq<Page<T>>, n: nat): (os: seq<ListOptions>)
    requires n <= |pages| + 1
    ensures |os| == n
    ensures forall i :: 0 <= i < n ==> os[i].perPage == perPage
    ensures n > 0 ==> os[0].page == 0
    ensures forall i :: 0 < i < n ==> os[i].page == pages[i - 1].nextPage
  {
    seq(n, i requires 0 <= i < n => ListOptions(if i == 0 then 0 else pages[i - 1].nextPage, perPage))
  }

  /** The list requests for one repository, with the page options sent. */
  function Requests<T>(owner: string, repo: string, perPage: nat, pages: seq<Page<T>>, n: nat): (rs: seq<Request>)
    requires n <= |pages| + 1
    ensures |rs| == n
    ensures forall i :: 0 <= i < n ==> rs[i] == Request(owner, repo, OptionsSent(perPage, pages, n)[i])
  {
    var os := OptionsSent(perPage, pages, n);
    seq(n, i requires 0 <= i < n => Request(owner, repo, os[i]))
  }
}
