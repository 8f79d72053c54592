/**
  What the three chart commands (cmd/repo_events_user.go,
  cmd/pullrequest_comments_user.go, cmd/discussion_comments_user.go) have in
  common: how a run ends, the dataset files it writes and the chart it asks
  for, and how output file names are built.
*/
module Command {
  import opened Remote

  /** A dataset file: its name and the bytes written to it. */
  datatype DataFile = DataFile(name: string, contents: string)

  /** One line of a chart: its legend and the dataset file it is read from. */
  datatype Series = Series(legend: string, inputFile: string)

  /** The arguments of the chart drawing call: the flag dates' years and months, the lines, the image file. */
  datatype Chart = Chart(startYear: int, endYear: int, startMonth: int, endMonth: int, series: seq<Series>, outputFile: string)

  /**
    How a command run ends: a flag is rejected, the fetch fails, or the
    selected records are printed, the datasets written and the chart drawn.
  */
  datatype Outcome<T> =
    | TeamMalformed
    | StartMalformed
    | EndMalformed
    | FetchFailed(error: FetchError)
    | Finished(printed: seq<T>, files: seq<DataFile>, chart: Chart)

  /** The stem every output file of a run shares: `start-user-name`. */
  function FileRoot(start: string, user: string, name: string): (root: string)
    ensures |root| == |start| + |user| + |name| + 2
  {
    start + "-" + user + "-" + name
  }

  /** Runs with different stems write different files: the stem determines the name part. */
  lemma {:induction false} FileRootInjective(start: string, user: string, a: string, b: string)
    ensures FileRoot(start, user, a) == FileRoot(start, user, b) <==> a == b
  {
    var p := start + "-" + user + "-";
    assert FileRoot(start, user, a) == p + a;
    assert FileRoot(start, user, b) == p + b;
    if p + a == p + b {
      assert a == (p + a)[|p|..];
    }
  }

  /** Datasets of different names go to different `.csv` files. */
  lemma {:induction false} CsvFilesDiffer(start: string, user: string, a: string, b: string)
    requires a != b
    ensures FileRoot(start, user, a) + ".csv" != FileRoot(start, user, b) + ".csv"
  {
    var x, y := FileRoot(start, user, a), FileRoot(start, user, b);
    if x + ".csv" == y + ".csv" {
      assert x == (x + ".csv")[..|x|] == (y + ".csv")[..|y|] == y;
      FileRootInjective(start, user, a, b);
    }
  }

  /** A chart image never overwrites a dataset file. */
  lemma {:induction false} ImageIsNotDataset(x: string, y: string)
    ensures x + ".png" != y + ".csv"
  {
    assert (x + ".png")[|x| + 3] == 'g';
    assert (y + ".csv")[|y| + 3] == 'v';
  }
}
