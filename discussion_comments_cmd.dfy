/**
  The `teamdiscussion` command (cmd/discussion_comments_user.go): split the
  team flag into organisation and team name, validate the date flags,
  fetch the team's discussion comments, keep the user's comments in the
  date range, write their dates as one dataset and chart it.
*/
module DiscussionCommentsCmd {
  import opened Wrappers
  import opened Strings
  import opened Calendar
  import opened Remote
  import opened Records
  import opened Selection
  import opened Command

  const CmdName := "teamdiscussion"

  /** `owner/teamname`: the first two `/`-separated segments; any further ones are ignored. */
  function TeamSplit(team: string): (r: Option<(string, string)>)
    ensures r.None? <==> '/' !in team
    ensures r.Some? ==> '/' !in r.value.0 && '/' !in r.value.1
  {
    var values := Split(team, '/');
    SplitCount(team, '/');
    if |values| < 2 then None else Some((values[0], values[1]))
  }

  /** The organisation and team name come back out of the flag they were written into. */
  lemma {:induction false} TeamSplitOf(org: string, teamName: string, tail: string)
    requires '/' !in org && '/' !in teamName
    requires tail == "" || tail[0] == '/'
    ensures TeamSplit(org + "/" + teamName + tail) == Some((org, teamName))
  {
    var rest := teamName + tail;
    assert org + "/" + teamName + tail == org + ['/'] + rest;
    SplitAround(org, rest, '/');
    SplitNoSeparator(org, '/');
    var more := RepoPieces(teamName, tail);
  }

  /** The single-line chart of the run. */
  function OneLineChart(start: string, user: string, first: ValidDate, last: ValidDate): Chart {
    Chart(first.year, last.year, first.month, last.month,
      [Series(CmdName, FileRoot(start, user, CmdName) + ".csv")],
      FileRoot(start, user, CmdName) + ".png")
  }

  /**
    The command. `fetch` is the fetcher's `FetchTeamDiscussionComments` with
    a background context, given the organisation and team name; a team
    flag without `/`, or a date flag that does not parse, ends the run
    before it is called.
  */
  method DiscussionComments(team: string, user: string, start: string, end: string,
                            fetch: (string, string) -> Result<seq<DiscussionComment>, FetchError>)
    returns (o: Outcome<DiscussionComment>)
    ensures TeamSplit(team).None? ==> o == TeamMalformed
    ensures TeamSplit(team).Some? && ParseDate(start).None? ==> o == StartMalformed
    ensures TeamSplit(team).Some? && ParseDate(start).Some? && ParseDate(end).None? ==> o == EndMalformed
    ensures TeamSplit(team).Some? && ParseDate(start).Some? && ParseDate(end).Some? ==>
      var (org, teamName) := TeamSplit(team).value;
      match fetch(org, teamName)
      case Failure(e) => o == FetchFailed(e)
      case Success(comments) =>
        var selected := Filter(comments, DiscussionStamp, Window(user, start, end));
        o == Finished(selected,
                      [DataFile(FileRoot(start, user, CmdName) + ".csv", DataSet(selected, DiscussionStamp))],
                      OneLineChart(start, user, ParseDate(start).value, ParseDate(end).value))
  {
    var values := TeamSplit(team);
    if values.None? {
      return TeamMalformed;
    }
    var (org, teamName) := values.value;
    var startTime := ParseDate(start);
    if startTime.None? {
      return StartMalformed;
    }
    var endTime := ParseDate(end);
    if endTime.None? {
      return EndMalformed;
    }
    var fetched := fetch(org, teamName);
    if fetched.Failure? {
      return FetchFailed(fetched.error);
    }
    var printed, timeSeriesDataSet := SelectComments(fetched.value, user, start, end);
    var fileRoot := FileRoot(start, user, CmdName);
    return Finished(printed, [DataFile(fileRoot + ".csv", timeSeriesDataSet)],
                    OneLineChart(start, user, startTime.value, endTime.value));
  }

  /** The selection loop: keep the user's comments in range, appending each one's date line. */
  method SelectComments(discussionComments: seq<DiscussionComment>, user: string, start: string, end: string)
    returns (printed: seq<DiscussionComment>, timeSeriesDataSet: string)
    ensures printed == Filter(discussionComments, DiscussionStamp, Window(user, start, end))
    ensures timeSeriesDataSet == DataSet(printed, DiscussionStamp)
  {
    ghost var w := Window(user, start, end);
    printed := [];
    timeSeriesDataSet := "";
    var i := 0;
    while i < |discussionComments|
      invariant 0 <= i <= |discussionComments|
      invariant printed == Filter(discussionComments[..i], DiscussionStamp, w)
      invariant timeSeriesDataSet == DataSet(printed, DiscussionStamp)
    {
      var c := discussionComments[i];
      FilterSnoc(discussionComments[..i], c, DiscussionStamp, w);
      assert discussionComments[..i + 1] == discussionComments[..i] + [c];
      ComparisonsDecideMatch(DiscussionStamp(c), w);
      if Compare(user, c.handle) == 0 {
        if Compare(c.createdAt, start) != -1 {
          if Compare(c.createdAt, end) != 1 {
            DataSetSnoc(printed, c, DiscussionStamp);
            printed := printed + [c];
            timeSeriesDataSet := timeSeriesDataSet + c.createdAt;
            timeSeriesDataSet := timeSeriesDataSet + "\n";
          }
        }
      }
      i := i + 1;
    }
    assert discussionComments[..i] == discussionComments;
  }
}
