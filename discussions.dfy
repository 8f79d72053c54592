/**
  `FetchTeamDiscussionComments` (github/discussions.go): find the team's id
  by reading the organisation's team list page by page, then list the
  team's discussions once, and for each discussion list its comments once,
  mapping each comment to a DiscussionComment.
*/
module Discussions {
  import opened Wrappers
  import opened Calendar
  import opened Records
  import opened Remote

  const PerPage: nat := 30

  /**
    The three endpoints the fetcher calls: the answers to successive team
    list requests, and the single-page answers for a team's discussions and
    for the comments of one discussion.
  */
  datatype TeamsApi = TeamsApi(
    teamPages: seq<Page<Team>>,
    discussions: int -> Result<seq<TeamDiscussion>, ApiError>,
    comments: (int, int) -> Result<seq<TeamDiscussionComment>, ApiError>)

  const NoReactions := Reactions(0, 0, 0, 0, 0, 0, 0)

  /** A team list request: the organisation and the page options. */
  datatype TeamListRequest = TeamListRequest(org: string, options: ListOptions)

  /** The team list requests the page loop sends for the organisation. */
  function TeamRequests(org: string, pages: seq<Page<Team>>, n: nat): (rs: seq<TeamListRequest>)
    requires n <= |pages| + 1
    ensures |rs| == n
    ensures forall i :: 0 <= i < n ==> rs[i] == TeamListRequest(org, OptionsSent(PerPage, pages, n)[i])
  {
    var os := OptionsSent(PerPage, pages, n);
    seq(n, i requires 0 <= i < n => TeamListRequest(org, os[i]))
  }

  /** One more team list request: its options follow the response before it. */
  lemma {:induction false} TeamRequestsSnoc(org: string, pages: seq<Page<Team>>, i: nat)
    requires i <= |pages|
    ensures TeamRequests(org, pages, i + 1)
         == TeamRequests(org, pages, i) + [TeamListRequest(org, ListOptions(if i == 0 then 0 else pages[i - 1].nextPage, PerPage))]
  {
    OptionsSentSnoc(PerPage, pages, i);
  }

  /** Team i is the first team on the page with the given name. */
  predicate FirstNamed(teams: seq<Team>, name: string, i: int) {
    0 <= i < |teams| && teams[i].name == name && forall j :: 0 <= j < i ==> teams[j].name != name
  }

  /** The id of the first team on a page with the given name. */
  function FirstMatch(teams: seq<Team>, name: string): (r: Option<int>)
    ensures r.None? <==> forall i :: 0 <= i < |teams| ==> teams[i].name != name
    ensures r.Some? ==> exists i :: 0 <= i < |teams| && teams[i].name == name && teams[i].id == r.value
  {
    if teams == [] then None
    else
      var init := teams[..|teams| - 1];
      var last := teams[|teams| - 1];
      match FirstMatch(init, name)
      case Some(id) => Some(id)
      case None => if last.name == name then Some(last.id) else None
  }

  /** A match is the id of the first team with the name. */
  lemma {:induction false} FirstMatchIsFirst(teams: seq<Team>, name: string) returns (i: nat)
    requires FirstMatch(teams, name).Some?
    ensures FirstNamed(teams, name, i) && teams[i].id == FirstMatch(teams, name).value
  {
    var init := teams[..|teams| - 1];
    if FirstMatch(init, name).Some? {
      i := FirstMatchIsFirst(init, name);
      assert teams[i] == init[i];
      assert forall j :: 0 <= j < i ==> teams[j] == init[j];
    } else {
      i := |teams| - 1;
      assert forall j :: 0 <= j < i ==> teams[j] == init[j];
    }
  }

  /** The team id after reading the given pages: a later page's match overwrites an earlier one. */
  function ResolvedId(pages: seq<Page<Team>>, name: string): (r: int)
    ensures r != 0 ==>
      exists i, j :: 0 <= i < |pages| && 0 <= j < |pages[i].items| && pages[i].items[j].name == name && pages[i].items[j].id == r
  {
    if pages == [] then 0
    else
      match FirstMatch(pages[|pages| - 1].items, name)
      case Some(id) => id
      case None => ResolvedId(pages[..|pages| - 1], name)
  }

  /** The id comes from the first match on the last page that has one. */
  lemma {:induction false} ResolvedIdLastMatch(pages: seq<Page<Team>>, name: string, i: nat)
    requires i < |pages| && FirstMatch(pages[i].items, name).Some?
    requires forall j :: i < j < |pages| ==> FirstMatch(pages[j].items, name).None?
    ensures ResolvedId(pages, name) == FirstMatch(pages[i].items, name).value
  {
    if i < |pages| - 1 {
      var init := pages[..|pages| - 1];
      assert init[i] == pages[i];
      assert forall j :: i < j < |init| ==> init[j] == pages[j];
      ResolvedIdLastMatch(init, name, i);
    }
  }

  /** With no team of that name on any page the id stays 0. */
  lemma {:induction false} ResolvedIdNoMatch(pages: seq<Page<Team>>, name: string)
    requires forall j :: 0 <= j < |pages| ==> FirstMatch(pages[j].items, name).None?
    ensures ResolvedId(pages, name) == 0
  {
    if pages != [] {
      var init := pages[..|pages| - 1];
      assert forall j :: 0 <= j < |init| ==> init[j] == pages[j];
      ResolvedIdNoMatch(init, name);
    }
  }

  /** The local record of one discussion comment: id, title and the counters stay zero. */
  function ToDiscussionComment(dc: TeamDiscussionComment): (r: DiscussionComment)
    ensures ParseDate(r.createdAt) == Some(dc.createdAt)
  {
    ParseFormat(dc.createdAt);
    DiscussionComment(dc.authorLogin, 0, "", dc.body, 0, 0, 0, 0, 0, 0, 0, Format(dc.createdAt))
  }

  /** A mapped comment keeps its author's login and its body; id, title and counters are zero. */
  lemma {:induction false} ToDiscussionCommentFields(dc: TeamDiscussionComment)
    ensures ToDiscussionComment(dc).handle == dc.authorLogin && ToDiscussionComment(dc).body == dc.body
    ensures ToDiscussionComment(dc).id == 0 && ToDiscussionComment(dc).title == ""
    ensures ToDiscussionComment(dc).reactionTotalCount == 0
    ensures ParseDate(ToDiscussionComment(dc).createdAt) == Some(dc.createdAt)
  {
  }

  function ToDiscussionComments(dcs: seq<TeamDiscussionComment>): (cs: seq<DiscussionComment>)
    ensures |cs| == |dcs|
  {
    seq(|dcs|, i requires 0 <= i < |dcs| => ToDiscussionComment(dcs[i]))
  }

  /**
    The comments of the given discussions, discussion by discussion; the
    first discussion whose comments cannot be listed fails the whole list.
  */
  function Gathered(api: TeamsApi, teamID: int, ds: seq<TeamDiscussion>): (r: Result<seq<DiscussionComment>, ApiError>)
    ensures r.Success? <==> forall i :: 0 <= i < |ds| ==> api.comments(teamID, ds[i].number).Success?
    ensures r.Failure? ==> exists i :: 0 <= i < |ds| && api.comments(teamID, ds[i].number) == Failure(r.error)
  {
    if ds == [] then Success([])
    else
      match Gathered(api, teamID, ds[..|ds| - 1])
      case Failure(e) => Failure(e)
      case Success(acc) =>
        match api.comments(teamID, ds[|ds| - 1].number)
        case Failure(e) => Failure(e)
        case Success(dcs) => Success(acc + ToDiscussionComments(dcs))
  }

  /** The comments of all discussions, concatenated in order, when every listing succeeds. */
  function AllComments(api: TeamsApi, teamID: int, ds: seq<TeamDiscussion>): seq<TeamDiscussionComment>
    requires forall i :: 0 <= i < |ds| ==> api.comments(teamID, ds[i].number).Success?
  {
    if ds == [] then []
    else AllComments(api, teamID, ds[..|ds| - 1]) + api.comments(teamID, ds[|ds| - 1].number).value
  }

  /** When every listing succeeds the result is every comment of every discussion, in order. */
  lemma {:induction false} GatheredIsAllComments(api: TeamsApi, teamID: int, ds: seq<TeamDiscussion>)
    requires forall i :: 0 <= i < |ds| ==> api.comments(teamID, ds[i].number).Success?
    ensures Gathered(api, teamID, ds) == Success(ToDiscussionComments(AllComments(api, teamID, ds)))
  {
    if ds != [] {
      var init := ds[..|ds| - 1];
      GatheredIsAllComments(api, teamID, init);
      var a := AllComments(api, teamID, init);
      var b := api.comments(teamID, ds[|ds| - 1].number).value;
      assert ToDiscussionComments(a + b) == ToDiscussionComments(a) + ToDiscussionComments(b);
    }
  }

  /** A discussion whose comments cannot be listed, after ones that can, fails the result with its error. */
  lemma {:induction false} GatheredFailsAt(api: TeamsApi, teamID: int, ds: seq<TeamDiscussion>, k: nat)
    requires k < |ds|
    requires forall i :: 0 <= i < k ==> api.comments(teamID, ds[i].number).Success?
    requires api.comments(teamID, ds[k].number).Failure?
    ensures Gathered(api, teamID, ds) == Failure(api.comments(teamID, ds[k].number).error)
  {
    var init := ds[..|ds| - 1];
    if k < |ds| - 1 {
      assert forall i :: 0 <= i <= k ==> init[i] == ds[i];
      GatheredFailsAt(api, teamID, init, k);
    } else {
      assert forall i :: 0 <= i < |init| ==> init[i] == ds[i];
      GatheredIsAllComments(api, teamID, init);
    }
  }

  /** Every gathered comment has zero counters, id 0 and an empty title, and a date that parses back. */
  lemma {:induction false} GatheredShape(api: TeamsApi, teamID: int, ds: seq<TeamDiscussion>)
    requires Gathered(api, teamID, ds).Success?
    ensures forall c :: c in Gathered(api, teamID, ds).value ==>
      && c.id == 0 && c.title == ""
      && c.reactionTotalCount == 0 && c.reactionPlusOne == 0 && c.reactionMinusOne == 0
      && c.reactionLaugh == 0 && c.reactionConfused == 0 && c.reactionHeart == 0 && c.reactionHooray == 0
      && ParseDate(c.createdAt).Some?
  {
    if ds != [] {
      var init := ds[..|ds| - 1];
      GatheredShape(api, teamID, init);
      var dcs := api.comments(teamID, ds[|ds| - 1].number).value;
      forall c | c in ToDiscussionComments(dcs)
        ensures ParseDate(c.createdAt).Some?
      {
        var i :| 0 <= i < |dcs| && c == ToDiscussionComment(dcs[i]);
        ParseFormat(dcs[i].createdAt);
      }
    }
  }

  /**
    The fetcher. `api` holds the server's answers; `teamRequests` are the
    team list requests sent, in order.
  */
  method FetchTeamDiscussionComments(ctx: Context, org: string, teamName: string, api: TeamsApi)
    returns (r: Result<seq<DiscussionComment>, FetchError>, teamRequests: seq<TeamListRequest>)
    requires Terminates(api.teamPages)
    ensures ctx == NilContext ==> r == Failure(ContextNil) && teamRequests == []
    ensures ctx != NilContext ==> teamRequests == TeamRequests(org, api.teamPages, EndIndex(api.teamPages) + 1)
    ensures ctx != NilContext && Paginate(api.teamPages).Failure? ==> r == Failure(Api(Paginate(api.teamPages).error))
    ensures ctx != NilContext && Paginate(api.teamPages).Success? ==>
      var teamID := ResolvedId(api.teamPages[..EndIndex(api.teamPages) + 1], teamName);
      if teamID == 0 then r == Failure(TeamIdMissing)
      else match api.discussions(teamID)
        case Failure(e) => r == Failure(Api(e))
        case Success(ds) =>
          match Gathered(api, teamID, ds)
          case Failure(e) => r == Failure(Api(e))
          case Success(cs) => r == Success(cs)
  {
    if ctx == NilContext {
      return Failure(ContextNil), [];
    }
    var resolved;
    resolved, teamRequests := ResolveTeamId(org, teamName, api.teamPages);
    if resolved.Failure? {
      return Failure(Api(resolved.error)), teamRequests;
    }
    var teamID := resolved.value;
    if teamID == 0 {
      return Failure(TeamIdMissing), teamRequests;
    }
    var teamdiscussions := api.discussions(teamID);
    if teamdiscussions.Failure? {
      return Failure(Api(teamdiscussions.error)), teamRequests;
    }
    var gathered := GatherComments(api, teamID, teamdiscussions.value);
    if gathered.Failure? {
      return Failure(Api(gathered.error)), teamRequests;
    }
    return Success(gathered.value), teamRequests;
  }

  /** The team page loop: the first match on each page overwrites the id found so far. */
  method ResolveTeamId(org: string, teamName: string, pages: seq<Page<Team>>)
    returns (r: Result<int, ApiError>, requests: seq<TeamListRequest>)
    requires Terminates(pages)
    ensures requests == TeamRequests(org, pages, EndIndex(pages) + 1)
    ensures Paginate(pages).Failure? ==> r == Failure(Paginate(pages).error)
    ensures Paginate(pages).Success? ==> r == Success(ResolvedId(pages[..EndIndex(pages) + 1], teamName))
  {
    var listOpts := ListOptions(0, PerPage);
    var teamID := 0;
    requests := [];
    var i := 0;
    while true
      invariant 0 <= i <= EndIndex(pages)
      invariant listOpts == ListOptions(if i == 0 then 0 else pages[i - 1].nextPage, PerPage)
      invariant requests == TeamRequests(org, pages, i)
      invariant teamID == ResolvedId(pages[..i], teamName)
      decreases EndIndex(pages) - i
    {
      var resp := pages[i];
      TeamRequestsSnoc(org, pages, i);
      requests := requests + [TeamListRequest(org, listOpts)];
      if resp.err.Some? {
        ReachedEnd(pages, i);
        return Failure(resp.err.value), requests;
      }
      teamID := ScanPage(resp.items, teamName, teamID);
      assert pages[..i + 1][..i] == pages[..i];
      assert pages[..i + 1][i] == resp;
      assert teamID == ResolvedId(pages[..i + 1], teamName);
      if resp.nextPage == 0 {
        ReachedEnd(pages, i);
        break;
      }
      listOpts := listOpts.(page := resp.nextPage);
      i := i + 1;
    }
    return Success(teamID), requests;
  }

  /** The loop over one page of teams: the first match sets the id and stops the scan. */
  method ScanPage(teams: seq<Team>, teamName: string, teamID: int) returns (id: int)
    ensures id == match FirstMatch(teams, teamName) case Some(found) => found case None => teamID
  {
    id := teamID;
    var j := 0;
    while j < |teams|
      invariant 0 <= j <= |teams|
      invariant FirstMatch(teams[..j], teamName).None?
      invariant id == teamID
    {
      if teams[j].name == teamName {
        id := teams[j].id;
        assert FirstMatch(teams[..j + 1], teamName) == Some(id) by {
          assert teams[..j + 1][..j] == teams[..j];
        }
        FirstMatchPrefix(teams, j + 1, teamName);
        return;
      }
      assert teams[..j + 1][..j] == teams[..j];
      j := j + 1;
    }
    assert teams[..j] == teams;
  }

  /** A match in a prefix is the match of the whole page. */
  lemma {:induction false} FirstMatchPrefix(teams: seq<Team>, n: nat, name: string)
    requires n <= |teams| && FirstMatch(teams[..n], name).Some?
    ensures FirstMatch(teams, name) == FirstMatch(teams[..n], name)
  {
    if n < |teams| {
      var init := teams[..|teams| - 1];
      assert init[..n] == teams[..n];
      FirstMatchPrefix(init, n, name);
    } else {
      assert teams[..n] == teams;
    }
  }

  /** The nested loop over discussions and their comments. */
  method GatherComments(api: TeamsApi, teamID: int, teamdiscussions: seq<TeamDiscussion>)
    returns (r: Result<seq<DiscussionComment>, ApiError>)
    ensures r == Gathered(api, teamID, teamdiscussions)
  {
    var discussionComments: seq<DiscussionComment> := [];
    var k := 0;
    while k < |teamdiscussions|
      invariant 0 <= k <= |teamdiscussions|
      invariant Gathered(api, teamID, teamdiscussions[..k]) == Success(discussionComments)
    {
      var td := teamdiscussions[k];
      var dcs := api.comments(teamID, td.number);
      assert teamdiscussions[..k + 1][..k] == teamdiscussions[..k];
      if dcs.Failure? {
        GatheredPrefixFails(api, teamID, teamdiscussions, k + 1);
        return Failure(dcs.error);
      }
      ghost var before := discussionComments;
      var reactions := NoReactions;
      var j := 0;
      while j < |dcs.value|
        invariant 0 <= j <= |dcs.value|
        invariant discussionComments == before + ToDiscussionComments(dcs.value[..j])
      {
        var dc := dcs.value[j];
        var reactionTotalCount, reactionPlusOne, reactionMinusOne, reactionLaugh := 0, 0, 0, 0;
        var reactionConfused, reactionHeart, reactionHooray := 0, 0, 0;
        if reactions != NoReactions {
          reactionTotalCount, reactionPlusOne, reactionMinusOne := dc.reactions.totalCount, dc.reactions.plusOne, dc.reactions.minusOne;
          reactionLaugh, reactionConfused := dc.reactions.laugh, dc.reactions.confused;
          reactionHeart, reactionHooray := dc.reactions.heart, dc.reactions.hooray;
        }
        var discussionComment := DiscussionComment(dc.authorLogin, 0, "", dc.body,
          reactionTotalCount, reactionPlusOne, reactionMinusOne, reactionLaugh,
          reactionConfused, reactionHeart, reactionHooray, Format(dc.createdAt));
        assert dcs.value[..j + 1] == dcs.value[..j] + [dc];
        discussionComments := discussionComments + [discussionComment];
        j := j + 1;
      }
      assert dcs.value[..j] == dcs.value;
      k := k + 1;
    }
    assert teamdiscussions[..k] == teamdiscussions;
    return Success(discussionComments);
  }

  /** Once a prefix of the discussions fails, so does the whole list. */
  lemma {:induction false} GatheredPrefixFails(api: TeamsApi, teamID: int, ds: seq<TeamDiscussion>, n: nat)
    requires n <= |ds| && Gathered(api, teamID, ds[..n]).Failure?
    ensures Gathered(api, teamID, ds) == Gathered(api, teamID, ds[..n])
  {
    if n < |ds| {
      var init := ds[..|ds| - 1];
      assert init[..n] == ds[..n];
      GatheredPrefixFails(api, teamID, init, n);
    } else {
      assert ds[..n] == ds;
    }
  }
}
