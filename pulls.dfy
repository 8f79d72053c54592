/**
  `FetchPullRequestComments` (github/pulls.go): check the context, split
  the repository URL's path into owner and repository, then read the
  repository's review comments page by page, 100 a page, mapping each to a
  PullComment. Unlike the event fetcher there is no separate test for an
  empty URL: its empty path fails the split.
*/
module Pulls {
  import opened Wrappers
  import opened Calendar
  import opened Records
  import opened Remote

  const PerPage: nat := 100

  /** The local record of one review comment. */
  function ToPullComment(c: PullRequestComment): (r: PullComment)
    ensures ParseDate(r.createdAt) == Some(c.createdAt)
  {
    ParseFormat(c.createdAt);
    PullComment(c.userLogin, c.id, c.body,
      c.reactions.totalCount, c.reactions.plusOne, c.reactions.minusOne, c.reactions.laugh,
      c.reactions.confused, c.reactions.heart, c.reactions.hooray,
      Format(c.createdAt))
  }

  function ToPullComments(cs: seq<PullRequestComment>): (ps: seq<PullComment>)
    ensures |ps| == |cs|
  {
    seq(|cs|, i requires 0 <= i < |cs| => ToPullComment(cs[i]))
  }

  /** A mapped comment keeps its author, id, body and counters, and its day as a date that parses back. */
  lemma {:induction false} ToPullCommentFields(c: PullRequestComment)
    ensures ToPullComment(c).handle == c.userLogin && ToPullComment(c).id == c.id && ToPullComment(c).body == c.body
    ensures ToPullComment(c).reactionTotalCount == c.reactions.totalCount
    ensures ToPullComment(c).reactionPlusOne == c.reactions.plusOne && ToPullComment(c).reactionMinusOne == c.reactions.minusOne
    ensures ToPullComment(c).reactionLaugh == c.reactions.laugh && ToPullComment(c).reactionConfused == c.reactions.confused
    ensures ToPullComment(c).reactionHeart == c.reactions.heart && ToPullComment(c).reactionHooray == c.reactions.hooray
    ensures ParseDate(ToPullComment(c).createdAt) == Some(c.createdAt)
  {
    ParseFormat(c.createdAt);
  }

  /**
    The fetcher. `parsed` is what `url.Parse` returns for repositoryURL (for
    the empty URL that is the empty path) and `pages` the server's answers
    to successive list requests; `requests` are the list requests sent.
  */
  method FetchPullRequestComments(ctx: Context, repositoryURL: string, parsed: ParsedUrl, pages: seq<Page<PullRequestComment>>)
    returns (r: Result<seq<PullComment>, FetchError>, requests: seq<Request>)
    requires Terminates(pages)
    requires repositoryURL == "" ==> parsed == Parsed("")
    ensures ctx == NilContext ==> r == Failure(ContextNil) && requests == []
    ensures ctx != NilContext && parsed.Unparsable? ==> r == Failure(UrlInvalid(parsed.message)) && requests == []
    ensures ctx != NilContext && parsed.Parsed? && OwnerAndRepo(parsed.path).None? ==>
      r == Failure(InvalidRepositoryUrl) && requests == []
    ensures ctx != NilContext && repositoryURL == "" ==> r == Failure(InvalidRepositoryUrl)
    ensures ctx != NilContext && parsed.Parsed? && OwnerAndRepo(parsed.path).Some? ==>
      var (owner, repo) := OwnerAndRepo(parsed.path).value;
      && requests == Requests(owner, repo, PerPage, pages, EndIndex(pages) + 1)
      && r == match Paginate(pages)
              case Failure(e) => Failure(Api(e))
              case Success(items) => Success(ToPullComments(items))
  {
    if ctx == NilContext {
      return Failure(ContextNil), [];
    }
    if parsed.Unparsable? {
      return Failure(UrlInvalid(parsed.message)), [];
    }
    var target := OwnerAndRepo(parsed.path);
    if target.None? {
      return Failure(InvalidRepositoryUrl), [];
    }
    var (owner, repo) := target.value;
    r, requests := ListAllComments(owner, repo, pages);
  }

  lemma {:induction false} ToPullCommentsAppend(a: seq<PullRequestComment>, b: seq<PullRequestComment>)
    ensures ToPullComments(a + b) == ToPullComments(a) + ToPullComments(b)
  {
  }

  /** The page loop, from the first list request to the response that ends it. */
  method ListAllComments(owner: string, repo: string, pages: seq<Page<PullRequestComment>>)
    returns (r: Result<seq<PullComment>, FetchError>, requests: seq<Request>)
    requires Terminates(pages)
    ensures requests == Requests(owner, repo, PerPage, pages, EndIndex(pages) + 1)
    ensures r == match Paginate(pages)
                 case Failure(e) => Failure(Api(e))
                 case Success(items) => Success(ToPullComments(items))
  {
    var listOpts := ListOptions(0, PerPage);
    var pullComments: seq<PullComment> := [];
    requests := [];
    var i := 0;
    while true
      invariant 0 <= i <= EndIndex(pages)
      invariant listOpts == ListOptions(if i == 0 then 0 else pages[i - 1].nextPage, PerPage)
      invariant requests == Requests(owner, repo, PerPage, pages, i)
      invariant pullComments == ToPullComments(Flatten(pages[..i]))
      decreases EndIndex(pages) - i
    {
      var resp := pages[i];
      RequestsSnoc(owner, repo, PerPage, pages, i);
      requests := requests + [Request(owner, repo, listOpts)];
      if resp.err.Some? {
        ReachedEnd(pages, i);
        return Failure(Api(resp.err.value)), requests;
      }
      pullComments := AppendComments(pullComments, resp.items);
      assert pages[..i + 1] == pages[..i] + [resp];
      ToPullCommentsAppend(Flatten(pages[..i]), resp.items);
      if resp.nextPage == 0 {
        ReachedEnd(pages, i);
        break;
      }
      listOpts := listOpts.(page := resp.nextPage);
      i := i + 1;
    }
    return Success(pullComments), requests;
  }

  /** The inner loop: one PullComment per comment of a page, appended in order. */
  method AppendComments(pullComments: seq<PullComment>, items: seq<PullRequestComment>) returns (out: seq<PullComment>)
    ensures out == pullComments + ToPullComments(items)
  {
    out := pullComments;
    var j := 0;
    while j < |items|
      invariant 0 <= j <= |items|
      invariant out == pullComments + ToPullComments(items[..j])
    {
      var prc := items[j];
      var pullComment := PullComment(prc.userLogin, prc.id, prc.body,
        prc.reactions.totalCount, prc.reactions.plusOne, prc.reactions.minusOne, prc.reactions.laugh,
        prc.reactions.confused, prc.reactions.heart, prc.reactions.hooray,
        Format(prc.createdAt));
      assert items[..j + 1] == items[..j] + [prc];
      out := out + [pullComment];
      j := j + 1;
    }
    assert items[..j] == items;
  }
}
