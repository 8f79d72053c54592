/**
  The `repoevents` command (cmd/repo_events_user.go): validate the date
  flags, fetch the repository's events, select the user's events in the
  date range, and write one dataset per tracked event type, then chart the
  four datasets together.
*/
module RepoEventsCmd {
  import opened Wrappers
  import opened Strings
  import opened Calendar
  import opened Remote
  import opened Records
  import opened Selection
  import opened Command

  const CmdName := "repoevents"

  /** The event types that get a dataset, with the dataset's legend. */
  const CreateEvent := "CreateEvent"
  const PushEvent := "PushEvent"
  const PullRequestEvent := "PullRequestEvent"
  const DeleteEvent := "DeleteEvent"

  predicate Tracked(t: string) {
    t == CreateEvent || t == PushEvent || t == PullRequestEvent || t == DeleteEvent
  }

  /** The events of one type, in order. */
  function OfType(es: seq<RepoEvent>, t: string): (r: seq<RepoEvent>)
    ensures |r| <= |es|
    ensures forall i :: 0 <= i < |r| ==> r[i].eventType == t
  {
    if es == [] then []
    else
      var init := OfType(es[..|es| - 1], t);
      if es[|es| - 1].eventType == t then init + [es[|es| - 1]] else init
  }

  /** The events of none of the tracked types. */
  function Untracked(es: seq<RepoEvent>): (r: seq<RepoEvent>)
    ensures forall i :: 0 <= i < |r| ==> !Tracked(r[i].eventType)
  {
    if es == [] then []
    else
      var init := Untracked(es[..|es| - 1]);
      if Tracked(es[|es| - 1].eventType) then init else init + [es[|es| - 1]]
  }

  lemma {:induction false} OfTypeSnoc(es: seq<RepoEvent>, e: RepoEvent, t: string)
    ensures OfType(es + [e], t) == OfType(es, t) + (if e.eventType == t then [e] else [])
  {
    assert (es + [e])[..|es|] == es;
  }

  /** The four datasets, each from the selected events of its type. */
  function Buckets(selected: seq<RepoEvent>, start: string, user: string): (r: seq<DataFile>)
    ensures |r| == 4
    ensures forall i, j :: 0 <= i < j < |r| ==> r[i].name != r[j].name
  {
    CsvFilesDiffer(start, user, "createbranch", "pushes");
    CsvFilesDiffer(start, user, "createbranch", "pullrequests");
    CsvFilesDiffer(start, user, "createbranch", "deletebranch");
    CsvFilesDiffer(start, user, "pushes", "pullrequests");
    CsvFilesDiffer(start, user, "pushes", "deletebranch");
    CsvFilesDiffer(start, user, "pullrequests", "deletebranch");
    [ DataFile(FileRoot(start, user, "createbranch") + ".csv", DataSet(OfType(selected, CreateEvent), EventStamp)),
      DataFile(FileRoot(start, user, "pushes") + ".csv", DataSet(OfType(selected, PushEvent), EventStamp)),
      DataFile(FileRoot(start, user, "pullrequests") + ".csv", DataSet(OfType(selected, PullRequestEvent), EventStamp)),
      DataFile(FileRoot(start, user, "deletebranch") + ".csv", DataSet(OfType(selected, DeleteEvent), EventStamp)) ]
  }

  /** The four-line chart of the run. */
  function FourLineChart(start: string, user: string, first: ValidDate, last: ValidDate): (c: Chart)
    ensures |c.series| == 4
    ensures forall i :: 0 <= i < |c.series| ==> c.series[i].inputFile != c.outputFile
  {
    ImageIsNotDataset(FileRoot(start, user, CmdName), FileRoot(start, user, "createbranch"));
    ImageIsNotDataset(FileRoot(start, user, CmdName), FileRoot(start, user, "pushes"));
    ImageIsNotDataset(FileRoot(start, user, CmdName), FileRoot(start, user, "pullrequests"));
    ImageIsNotDataset(FileRoot(start, user, CmdName), FileRoot(start, user, "deletebranch"));
    Chart(first.year, last.year, first.month, last.month,
      [ Series("createbranch", FileRoot(start, user, "createbranch") + ".csv"),
        Series("pushes", FileRoot(start, user, "pushes") + ".csv"),
        Series("pullrequests", FileRoot(start, user, "pullrequests") + ".csv"),
        Series("deletebranch", FileRoot(start, user, "deletebranch") + ".csv") ],
      FileRoot(start, user, CmdName) + ".png")
  }

  /**
    The command. `fetch` is the fetcher's `FetchRepoEvents` with a
    background context; a date flag that does not parse ends the run before
    it is called.
  */
  method RepoEvents(repo: string, user: string, start: string, end: string,
                    fetch: string -> Result<seq<RepoEvent>, FetchError>)
    returns (o: Outcome<RepoEvent>)
    ensures ParseDate(start).None? ==> o == StartMalformed
    ensures ParseDate(start).Some? && ParseDate(end).None? ==> o == EndMalformed
    ensures ParseDate(start).Some? && ParseDate(end).Some? && fetch(repo).Failure? ==>
      o == FetchFailed(fetch(repo).error)
    ensures ParseDate(start).Some? && ParseDate(end).Some? && fetch(repo).Success? ==>
      var selected := Filter(fetch(repo).value, EventStamp, Window(user, start, end));
      o == Finished(selected, Buckets(selected, start, user),
                    FourLineChart(start, user, ParseDate(start).value, ParseDate(end).value))
  {
    var startTime := ParseDate(start);
    if startTime.None? {
      return StartMalformed;
    }
    var endTime := ParseDate(end);
    if endTime.None? {
      return EndMalformed;
    }
    var fetched := fetch(repo);
    if fetched.Failure? {
      return FetchFailed(fetched.error);
    }
    var printed, createBranch, pushes, pullRequests, deleteBranch := SelectEvents(fetched.value, user, start, end);
    var files := [
      DataFile(FileRoot(start, user, "createbranch") + ".csv", createBranch),
      DataFile(FileRoot(start, user, "pushes") + ".csv", pushes),
      DataFile(FileRoot(start, user, "pullrequests") + ".csv", pullRequests),
      DataFile(FileRoot(start, user, "deletebranch") + ".csv", deleteBranch) ];
    var chart := FourLineChart(start, user, startTime.value, endTime.value);
    return Finished(printed, files, chart);
  }

  /** The selection loop: keep the user's events in range, appending each one's date line to its type's bucket. */
  method SelectEvents(events: seq<RepoEvent>, user: string, start: string, end: string)
    returns (printed: seq<RepoEvent>, createBranch: string, pushes: string, pullRequests: string, deleteBranch: string)
    ensures printed == Filter(events, EventStamp, Window(user, start, end))
    ensures createBranch == DataSet(OfType(printed, CreateEvent), EventStamp)
    ensures pushes == DataSet(OfType(printed, PushEvent), EventStamp)
    ensures pullRequests == DataSet(OfType(printed, PullRequestEvent), EventStamp)
    ensures deleteBranch == DataSet(OfType(printed, DeleteEvent), EventStamp)
  {
    ghost var w := Window(user, start, end);
    printed := [];
    createBranch, pushes, pullRequests, deleteBranch := "", "", "", "";
    var i := 0;
    while i < |events|
      invariant 0 <= i <= |events|
      invariant printed == Filter(events[..i], EventStamp, w)
      invariant createBranch == DataSet(OfType(printed, CreateEvent), EventStamp)
      invariant pushes == DataSet(OfType(printed, PushEvent), EventStamp)
      invariant pullRequests == DataSet(OfType(printed, PullRequestEvent), EventStamp)
      invariant deleteBranch == DataSet(OfType(printed, DeleteEvent), EventStamp)
    {
      var e := events[i];
      FilterSnoc(events[..i], e, EventStamp, w);
      assert events[..i + 1] == events[..i] + [e];
      ComparisonsDecideMatch(EventStamp(e), w);
      if Compare(user, e.handle) == 0 {
        if Compare(e.createdAt, start) != -1 {
          if Compare(e.createdAt, end) != 1 {
            ghost var before := printed;
            printed := printed + [e];
            createBranch := AppendIfType(createBranch, before, e, CreateEvent);
            pushes := AppendIfType(pushes, before, e, PushEvent);
            pullRequests := AppendIfType(pullRequests, before, e, PullRequestEvent);
            deleteBranch := AppendIfType(deleteBranch, before, e, DeleteEvent);
          }
        }
      }
      i := i + 1;
    }
    assert events[..i] == events;
  }

  /** One type's branch of the loop body: an event of that type adds its date line to the bucket. */
  method AppendIfType(bucket: string, ghost before: seq<RepoEvent>, e: RepoEvent, t: string)
    returns (bucket': string)
    requires bucket == DataSet(OfType(before, t), EventStamp)
    ensures bucket' == DataSet(OfType(before + [e], t), EventStamp)
  {
    bucket' := bucket;
    OfTypeSnoc(before, e, t);
    if e.eventType == t {
      DataSetSnoc(OfType(before, t), e, EventStamp);
      bucket' := bucket' + e.createdAt;
      bucket' := bucket' + "\n";
    }
  }

  /** Every event is counted once: in the bucket of its type, or among the untracked. */
  lemma {:induction false} BucketsPartition(es: seq<RepoEvent>)
    ensures |OfType(es, CreateEvent)| + |OfType(es, PushEvent)| + |OfType(es, PullRequestEvent)|
            + |OfType(es, DeleteEvent)| + |Untracked(es)| == |es|
  {
    if es != [] {
      BucketsPartition(es[..|es| - 1]);
    }
  }

  /**
    The four datasets hold at most one line per selected event, and exactly
    one each when every selected event has a tracked type.
  */
  lemma {:induction false} BucketLineCounts(selected: seq<RepoEvent>)
    requires forall i :: 0 <= i < |selected| ==> '\n' !in selected[i].createdAt
    ensures
      var total := LineCount(DataSet(OfType(selected, CreateEvent), EventStamp))
                 + LineCount(DataSet(OfType(selected, PushEvent), EventStamp))
                 + LineCount(DataSet(OfType(selected, PullRequestEvent), EventStamp))
                 + LineCount(DataSet(OfType(selected, DeleteEvent), EventStamp));
      total <= |selected| && (total == |selected| <==> forall i :: 0 <= i < |selected| ==> Tracked(selected[i].eventType))
  {
    BucketsPartition(selected);
    BucketLines(selected, CreateEvent);
    BucketLines(selected, PushEvent);
    BucketLines(selected, PullRequestEvent);
    BucketLines(selected, DeleteEvent);
    UntrackedEmpty(selected);
  }

  /** A bucket has one line per event of its type. */
  lemma {:induction false} BucketLines(selected: seq<RepoEvent>, t: string)
    requires forall i :: 0 <= i < |selected| ==> '\n' !in selected[i].createdAt
    ensures LineCount(DataSet(OfType(selected, t), EventStamp)) == |OfType(selected, t)|
  {
    var b := OfType(selected, t);
    OfTypeMembers(selected, t);
    forall i | 0 <= i < |b|
      ensures '\n' !in EventStamp(b[i]).createdAt
    {
      assert b[i] in selected;
      var j :| 0 <= j < |selected| && selected[j] == b[i];
    }
    DataSetLineCount(b, EventStamp);
  }

  lemma {:induction false} OfTypeMembers(es: seq<RepoEvent>, t: string)
    ensures forall x :: x in OfType(es, t) ==> x in es
  {
    if es != [] {
      OfTypeMembers(es[..|es| - 1], t);
    }
  }

  /** An event is in the bucket of type t exactly when it is selected and has type t. */
  lemma {:induction false} OfTypeMembership(es: seq<RepoEvent>, t: string)
    ensures forall x :: x in OfType(es, t) <==> x in es && x.eventType == t
  {
    if es != [] {
      var init := es[..|es| - 1];
      OfTypeMembership(init, t);
      assert es == init + [es[|es| - 1]];
    }
  }

  /** Each event keeps its multiplicity in the bucket of its own type. */
  lemma {:induction false} OfTypeMultiplicity(es: seq<RepoEvent>, t: string, x: RepoEvent)
    requires x.eventType == t
    ensures multiset(OfType(es, t))[x] == multiset(es)[x]
  {
    if es != [] {
      var init := es[..|es| - 1];
      OfTypeMultiplicity(init, t, x);
      assert es == init + [es[|es| - 1]];
    }
  }

  /** No event is untracked exactly when every event has a tracked type. */
  lemma {:induction false} UntrackedEmpty(es: seq<RepoEvent>)
    ensures Untracked(es) == [] <==> forall i :: 0 <= i < |es| ==> Tracked(es[i].eventType)
  {
    if es != [] {
      var init := es[..|es| - 1];
      UntrackedEmpty(init);
      assert forall i :: 0 <= i < |init| ==> init[i] == es[i];
    }
  }

  /**
    Example: of bob's three push events on 2018-05-01, 2018-05-02 and
    2018-06-01, the window from 2018-05-01 to 2018-05-31 keeps the first two.
  */
  lemma {:induction false} MayWindowScenario()
    ensures var es := [RepoEvent("bob", "", PushEvent, "", "2018-05-01"),
                       RepoEvent("bob", "", PushEvent, "", "2018-05-02"),
                       RepoEvent("bob", "", PushEvent, "", "2018-06-01")];
      Filter(es, EventStamp, Window("bob", "2018-05-01", "2018-05-31")) == es[..2]
  {
    ScenarioComparisons();
    KeepFirstTwo(RepoEvent("bob", "", PushEvent, "", "2018-05-01"),
                 RepoEvent("bob", "", PushEvent, "", "2018-05-02"),
                 RepoEvent("bob", "", PushEvent, "", "2018-06-01"),
                 Window("bob", "2018-05-01", "2018-05-31"));
  }

  lemma {:induction false} KeepFirstTwo(a: RepoEvent, b: RepoEvent, c: RepoEvent, w: Window)
    requires Matches(EventStamp(a), w) && Matches(EventStamp(b), w) && !Matches(EventStamp(c), w)
    ensures Filter([a, b, c], EventStamp, w) == [a, b, c][..2]
  {
    FilterSnoc([a, b], c, EventStamp, w);
    FilterSnoc([a], b, EventStamp, w);
    FilterSnoc([], a, EventStamp, w);
    assert [a, b, c] == [a, b] + [c];
    assert [a, b] == [a] + [b];
    assert [a] == [] + [a];
  }

  /** The string comparisons the example makes. */
  lemma {:induction false} ScenarioComparisons()
    ensures LexLe("2018-05-01", "2018-05-01") && LexLe("2018-05-01", "2018-05-31")
    ensures LexLe("2018-05-01", "2018-05-02") && LexLe("2018-05-02", "2018-05-31")
    ensures !LexLe("2018-06-01", "2018-05-31")
  {
    CompareZero("2018-05-01", "2018-05-01");
    FirstOfMayInWindow();
    SecondOfMayInWindow();
    FirstBeforeSecondOfMay();
    FirstOfJuneAfterWindow();
  }

  lemma {:induction false} FirstOfMayInWindow()
    ensures Compare("2018-05-01", "2018-05-31") == -1
  {
    SmallerAfterPrefix("2018-05-", "01", "31");
  }

  lemma {:induction false} SecondOfMayInWindow()
    ensures Compare("2018-05-02", "2018-05-31") == -1
  {
    SmallerAfterPrefix("2018-05-", "02", "31");
  }

  lemma {:induction false} FirstBeforeSecondOfMay()
    ensures Compare("2018-05-01", "2018-05-02") == -1
  {
    SmallerAfterPrefix("2018-05-0", "1", "2");
  }

  lemma {:induction false} FirstOfJuneAfterWindow()
    ensures Compare("2018-06-01", "2018-05-31") == 1
  {
    SmallerAfterPrefix("2018-0", "5-31", "6-01");
    CompareFlip("2018-05-31", "2018-06-01");
  }

  /** After a common prefix, the first differing character decides. */
  lemma {:induction false} SmallerAfterPrefix(p: string, x: string, y: string)
    requires x != [] && y != [] && x[0] < y[0]
    ensures Compare(p + x, p + y) == -1
  {
    CompareCommonPrefix(p, x, y);
  }
}
