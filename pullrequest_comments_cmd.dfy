/**
  The `prcomments` command (cmd/pullrequest_comments_user.go): validate
  the date flags, fetch the repository's review comments, keep the user's
  comments in the date range, write their dates as one dataset and chart it.
*/
module PullRequestCommentsCmd {
  import opened Wrappers
  import opened Strings
  import opened Calendar
  import opened Remote
  import opened Records
  import opened Selection
  import opened Command

  const CmdName := "prcomments"

  /** The single-line chart of the run. */
  function OneLineChart(start: string, user: string, first: ValidDate, last: ValidDate): Chart {
    Chart(first.year, last.year, first.month, last.month,
      [Series(CmdName, FileRoot(start, user, CmdName) + ".csv")],
      FileRoot(start, user, CmdName) + ".png")
  }

  /**
    The command. `fetch` is the fetcher's `FetchPullRequestComments` with a
    background context; a date flag that does not parse ends the run before
    it is called. `printed` is `filteredPRComments`.
  */
  method PullRequestComments(repo: string, user: string, start: string, end: string,
                             fetch: string -> Result<seq<PullComment>, FetchError>)
    returns (o: Outcome<PullComment>)
    ensures ParseDate(start).None? ==> o == StartMalformed
    ensures ParseDate(start).Some? && ParseDate(end).None? ==> o == EndMalformed
    ensures ParseDate(start).Some? && ParseDate(end).Some? && fetch(repo).Failure? ==>
      o == FetchFailed(fetch(repo).error)
    ensures ParseDate(start).Some? && ParseDate(end).Some? && fetch(repo).Success? ==>
      var filtered := Filter(fetch(repo).value, PullStamp, Window(user, start, end));
      o == Finished(filtered,
                    [DataFile(FileRoot(start, user, CmdName) + ".csv", DataSet(filtered, PullStamp))],
                    OneLineChart(start, user, ParseDate(start).value, ParseDate(end).value))
  {
    var startTime := ParseDate(start);
    if startTime.None? {
      return StartMalformed;
    }
    var endTime := ParseDate(end);
    if endTime.None? {
      return EndMalformed;
    }
    var fetched := fetch(repo);
    if fetched.Failure? {
      return FetchFailed(fetched.error);
    }
    var filteredPRComments, timeSeriesDataSet := SelectComments(fetched.value, user, start, end);
    var fileRoot := FileRoot(start, user, CmdName);
    return Finished(filteredPRComments, [DataFile(fileRoot + ".csv", timeSeriesDataSet)],
                    OneLineChart(start, user, startTime.value, endTime.value));
  }

  /** The selection loop: keep the user's comments in range, appending each one's date line. */
  method SelectComments(prComments: seq<PullComment>, user: string, start: string, end: string)
    returns (filteredPRComments: seq<PullComment>, timeSeriesDataSet: string)
    ensures filteredPRComments == Filter(prComments, PullStamp, Window(user, start, end))
    ensures timeSeriesDataSet == DataSet(filteredPRComments, PullStamp)
  {
    ghost var w := Window(user, start, end);
    filteredPRComments := [];
    timeSeriesDataSet := "";
    var i := 0;
    while i < |prComments|
      invariant 0 <= i <= |prComments|
      invariant filteredPRComments == Filter(prComments[..i], PullStamp, w)
      invariant timeSeriesDataSet == DataSet(filteredPRComments, PullStamp)
    {
      var c := prComments[i];
      FilterSnoc(prComments[..i], c, PullStamp, w);
      assert prComments[..i + 1] == prComments[..i] + [c];
      ComparisonsDecideMatch(PullStamp(c), w);
      if Compare(user, c.handle) == 0 {
        if Compare(c.createdAt, start) != -1 {
          if Compare(c.createdAt, end) != 1 {
            DataSetSnoc(filteredPRComments, c, PullStamp);
            filteredPRComments := filteredPRComments + [c];
            timeSeriesDataSet := timeSeriesDataSet + c.createdAt;
            timeSeriesDataSet := timeSeriesDataSet + "\n";
          }
        }
      }
      i := i + 1;
    }
    assert prComments[..i] == prComments;
  }
}
