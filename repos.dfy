/**
  `FetchRepoEvents` (github/repos.go): check the arguments, split the
  repository URL's path into owner and repository, then read the event list
  page by page, 30 events a page, mapping each event to a RepoEvent.
*/
module Repos {
  import opened Wrappers
  import opened Calendar
  import opened Records
  import opened Remote

  const PerPage: nat := 30

  /** The local record of one event; the payload is left empty. */
  function ToRepoEvent(e: Event): (r: RepoEvent)
    ensures ParseDate(r.createdAt) == Some(e.createdAt)
  {
    ParseFormat(e.createdAt);
    RepoEvent(e.actorLogin, e.repoName, e.eventType, "", Format(e.createdAt))
  }

  function ToRepoEvents(es: seq<Event>): (rs: seq<RepoEvent>)
    ensures |rs| == |es|
  {
    seq(|es|, i requires 0 <= i < |es| => ToRepoEvent(es[i]))
  }

  /** A mapped event keeps who, where and what, and its day as a date that parses back. */
  lemma {:induction false} ToRepoEventFields(e: Event)
    ensures ToRepoEvent(e).handle == e.actorLogin && ToRepoEvent(e).repo == e.repoName
    ensures ToRepoEvent(e).eventType == e.eventType && ToRepoEvent(e).payload == ""
    ensures ParseDate(ToRepoEvent(e).createdAt) == Some(e.createdAt)
  {
    ParseFormat(e.createdAt);
  }

  /**
    The fetcher. `parsed` is what `url.Parse` returns for repositoryURL and
    `pages` the server's answers to successive list requests; `requests`
    are the list requests sent, in order.
  */
  method FetchRepoEvents(ctx: Context, repositoryURL: string, parsed: ParsedUrl, pages: seq<Page<Event>>)
    returns (r: Result<seq<RepoEvent>, FetchError>, requests: seq<Request>)
    requires Terminates(pages)
    ensures ctx == NilContext ==> r == Failure(ContextNil) && requests == []
    ensures ctx != NilContext && repositoryURL == "" ==> r == Failure(UrlEmpty) && requests == []
    ensures ctx != NilContext && repositoryURL != "" && parsed.Unparsable? ==>
      r == Failure(UrlInvalid(parsed.message)) && requests == []
    ensures ctx != NilContext && repositoryURL != "" && parsed.Parsed? && OwnerAndRepo(parsed.path).None? ==>
      r == Failure(InvalidRepositoryUrl) && requests == []
    ensures ctx != NilContext && repositoryURL != "" && parsed.Parsed? && OwnerAndRepo(parsed.path).Some? ==>
      var (owner, repo) := OwnerAndRepo(parsed.path).value;
      && requests == Requests(owner, repo, PerPage, pages, EndIndex(pages) + 1)
      && r == match Paginate(pages)
              case Failure(e) => Failure(Api(e))
              case Success(items) => Success(ToRepoEvents(items))
  {
    if ctx == NilContext {
      return Failure(ContextNil), [];
    }
    if repositoryURL == "" {
      return Failure(UrlEmpty), [];
    }
    if parsed.Unparsable? {
      return Failure(UrlInvalid(parsed.message)), [];
    }
    var target := OwnerAndRepo(parsed.path);
    if target.None? {
      return Failure(InvalidRepositoryUrl), [];
    }
    var (owner, repo) := target.value;
    r, requests := ListAllEvents(owner, repo, pages);
  }

  lemma {:induction false} ToRepoEventsAppend(a: seq<Event>, b: seq<Event>)
    ensures ToRepoEvents(a + b) == ToRepoEvents(a) + ToRepoEvents(b)
  {
  }

  /** The page loop, from the first list request to the response that ends it. */
  method ListAllEvents(owner: string, repo: string, pages: seq<Page<Event>>)
    returns (r: Result<seq<RepoEvent>, FetchError>, requests: seq<Request>)
    requires Terminates(pages)
    ensures requests == Requests(owner, repo, PerPage, pages, EndIndex(pages) + 1)
    ensures r == match Paginate(pages)
                 case Failure(e) => Failure(Api(e))
                 case Success(items) => Success(ToRepoEvents(items))
  {
    var listOpts := ListOptions(0, PerPage);
    var events: seq<RepoEvent> := [];
    requests := [];
    var i := 0;
    while true
      invariant 0 <= i <= EndIndex(pages)
      invariant listOpts == ListOptions(if i == 0 then 0 else pages[i - 1].nextPage, PerPage)
      invariant requests == Requests(owner, repo, PerPage, pages, i)
      invariant events == ToRepoEvents(Flatten(pages[..i]))
      decreases EndIndex(pages) - i
    {
      var resp := pages[i];
      RequestsSnoc(owner, repo, PerPage, pages, i);
      requests := requests + [Request(owner, repo, listOpts)];
      if resp.err.Some? {
        ReachedEnd(pages, i);
        return Failure(Api(resp.err.value)), requests;
      }
      events := AppendEvents(events, resp.items);
      assert pages[..i + 1] == pages[..i] + [resp];
      ToRepoEventsAppend(Flatten(pages[..i]), resp.items);
      if resp.nextPage == 0 {
        ReachedEnd(pages, i);
        break;
      }
      listOpts := listOpts.(page := resp.nextPage);
      i := i + 1;
    }
    return Success(events), requests;
  }

  /** The inner loop: one RepoEvent per event of a page, appended in order. */
  method AppendEvents(events: seq<RepoEvent>, items: seq<Event>) returns (out: seq<RepoEvent>)
    ensures out == events + ToRepoEvents(items)
  {
    out := events;
    var j := 0;
    while j < |items|
      invariant 0 <= j <= |items|
      invariant out == events + ToRepoEvents(items[..j])
    {
      var e := items[j];
      var event := RepoEvent(e.actorLogin, e.repoName, e.eventType, "", Format(e.createdAt));
      assert items[..j + 1] == items[..j] + [e];
      out := out + [event];
      j := j + 1;
    }
    assert items[..j] == items;
  }
}
