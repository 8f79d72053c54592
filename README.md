# github-teamwork, modelled in Dafny

github-teamwork is a command-line tool. It reads a team's activity from the GitHub API and charts one person's activity per day. There are three commands:

- `repoevents` charts a repository's events;
- `prcomments` charts its pull-request review comments;
- `teamdiscussion` charts a team's discussion comments.

Each command works the same way:

1. It validates the `--start` and `--end` flags as `YYYY-MM-DD` dates.
2. It calls a fetcher, which pages through the API and flattens the answers into local records.
3. It keeps the records whose handle is the `--user` flag and whose date string lies between the two flags, inclusive, in input order.
4. It writes one `date + "\n"` line per kept record to a dataset file.
5. It charts the dataset. The x axis is every day of the start month, and the y axis is the per-day count of dataset rows.

This project models that core:

- the three fetchers (`github/repos.go`, `github/pulls.go`, `github/discussions.go`);
- the three command bodies (`cmd/*_user.go`);
- the calendar and counting half of `cmd/root.go`.

It proves properties of each.

Modules, in dependency order:

- **Wrappers**: `Option` and `Result`.
- **Strings**: Go's `strings.Compare` and `strings.Split`, with their laws. Compare is a total order, and Split is inverted by Join and counts its separators.
- **Calendar**: `daysIn`; the `2006-01-02` rendering of `time.Format` and its inverse `time.Parse`. A round trip holds both ways. For rendered dates, string order is calendar order.
- **Selection**: the selection predicate the three commands share, the `Filter` it induces, and the dataset text built from the records.
- **Records**: the local `PullComment`, `RepoEvent` and `DiscussionComment` records of `github/fetcher.go`.
- **Remote**: the remote item types and the fetcher errors.
  - A list endpoint is modelled as the sequence of responses the server gives to successive requests. Each response has items, a next-page number and an optional error.
  - `Paginate` is the specification of a page loop. `Follow` is an independent forward reading of the same loop.
  - It also holds the URL-path split into owner and repository.
- **Repos, Pulls, Discussions**: the three fetchers as methods with their loops. Each is proved equal to a specification built from `Paginate`, the record mappings and the team-id resolution.
- **Root**:
  - `getTimeSeriesDataForTheMonth`;
  - `getCountDataPerDay`, whose nested day/row loop fills a map from day number to count, read out in the map's unspecified order;
  - the csv reading that precedes them.
- **Command**: the outcome of a command run and its output file names. A run ends with a rejected flag, a failed fetch, or the printed records plus the dataset files plus the chart request.
- **RepoEventsCmd, PullRequestCommentsCmd, DiscussionCommentsCmd**: the three commands, with their selection loops proved against `Filter` and `DataSet`.

Inputs the model takes as parameters:

- **Network:** the server's answers are parameters of the fetchers. The fetchers themselves are function parameters of the commands.
- **`url.Parse`:** its result is a parameter.
- **Dataset files:** a file's contents are a parameter of `getCountDataPerDay`; None means the file cannot be read.

The result of `writeDataSetToFile` is discarded (cmd/repo_events_user.go:112-118, cmd/pullrequest_comments_user.go:92, cmd/discussion_comments_user.go:96), so a failed write does not end the run: in the model a run that reaches the write step always produces its files and its chart request. The start-date error at cmd/repo_events_user.go:57 and cmd/pullrequest_comments_user.go:57 prints a message that says "end time". The model keeps the two cases apart as `StartMalformed` and `EndMalformed` and does not model the printed text.

## Model

| member | source | states |
|---|---|---|
| Strings.Compare | cmd/repo_events_user.go:86-88 | `strings.Compare` yields only -1, 0 or +1 |
| Strings.CompareZero | cmd/repo_events_user.go:86 | Compare is 0 exactly when the strings are equal, so the handle test is exact, case-sensitive equality |
| Strings.CompareFlip | cmd/repo_events_user.go:87-88 | swapping the arguments negates the result, so `Compare(createdAt, start) != -1` means start sorts no later than createdAt |
| Strings.LexLeTotalOrder | cmd/repo_events_user.go:87-88 | inclusive string comparison is reflexive, antisymmetric, transitive and total |
| Strings.CompareConcat | cmd/repo_events_user.go:87-88 | for first parts of equal length, those parts decide the comparison of two concatenations unless they are equal |
| Strings.CompareCommonPrefix | cmd/repo_events_user.go:87-88 | a shared prefix does not change a comparison |
| Strings.Split | github/repos.go:46 | `strings.Split` returns at least one piece, and no piece contains the separator |
| Strings.JoinSplit | github/repos.go:46 | splitting loses nothing: joining the pieces with the separator gives back the original string |
| Strings.SplitCount | github/repos.go:46-47 | the number of pieces is the number of separators plus one |
| Strings.SplitNoSeparator | cmd/discussion_comments_user.go:52 | a string without the separator is a single piece |
| Strings.SplitAround | github/repos.go:46 | splitting `s + sep + t` is splitting s followed by splitting t |
| Calendar.DaysIn | cmd/root.go:89-91 | the day before the first of the next month is the Gregorian month length: 31, 30, or for February 29 in leap years and 28 otherwise |
| Calendar.Digits | github/repos.go:73 | a rendered field has exactly its layout width and only decimal digits |
| Calendar.Value | cmd/repo_events_user.go:55 | a digit string denotes a number below 10 to the power of its length |
| Calendar.Format | github/repos.go:73 | a rendered `2006-01-02` date is ten characters long |
| Calendar.ValueOfDigits | github/repos.go:73 | reading a rendered field gives back the number, when it fits the width |
| Calendar.DigitsOfValue | cmd/repo_events_user.go:55 | rendering the number a digit string denotes gives back that string |
| Calendar.ParseFormat | cmd/repo_events_user.go:55 | `time.Parse` of a rendered date gives back the date |
| Calendar.FormatParse | cmd/repo_events_user.go:55 | every string that `time.Parse` accepts is the rendering of the date it yields |
| Calendar.ParseDateIff | cmd/repo_events_user.go:55-66 | a string parses to date d if and only if it is d's rendering |
| Calendar.ParseDate | cmd/repo_events_user.go:55 | `time.Parse` with layout `2006-01-02` accepts only ten-character strings with '-' at positions 4 and 7; its partner `Calendar.ParseDateIff` says it accepts exactly the renderings of valid dates |
| Calendar.MonthThirteenRejected | cmd/repo_events_user.go:55-59 | example: the flag "2018-13-40", with month 13, is rejected |
| Calendar.CompareDigitStrings | cmd/repo_events_user.go:87-88 | for digit strings of one length, string order is numeric order |
| Calendar.CompareLast | cmd/repo_events_user.go:87-88 | strings of one length compare by their fronts, or by their last characters when the fronts are equal |
| Calendar.DigitFieldCompare | cmd/repo_events_user.go:87-88 | zero-padded fields of one width compare as the numbers they render, and are equal only for equal numbers |
| Calendar.RenderCompare | cmd/repo_events_user.go:87-88 | two renderings compare year field first, then month, then day |
| Calendar.FormatCompare | cmd/repo_events_user.go:87-88 | `strings.Compare` on two rendered dates is their calendar comparison |
| Calendar.FormatOrder | cmd/repo_events_user.go:87-88 | inclusive string order on rendered dates is "same day or earlier" |
| Selection.Filter | cmd/pullrequest_comments_user.go:79-90 | the selection is no longer than the input, and every selected record matches |
| Selection.MatchesNeedsOrderedWindow | cmd/repo_events_user.go:86-88 | a record can pass the window test only when the --start flag sorts no later than the --end flag, so a reversed window selects nothing |
| Selection.DataSetShape | cmd/pullrequest_comments_user.go:79-90 | the dataset is empty exactly when no record was selected, and otherwise ends with a newline |
| Selection.Dates | cmd/pullrequest_comments_user.go:85 | one date per record, in order: entry i is record i's CreatedAt |
| Selection.ComparisonsDecideMatch | cmd/repo_events_user.go:86-88 | the three nested `strings.Compare` tests pass exactly for records whose handle is the user and whose date lies in [start, end] |
| Selection.FilterSnoc | cmd/pullrequest_comments_user.go:79-90 | one more input record extends the selection by that record exactly when it matches |
| Selection.DataSetSnoc | cmd/pullrequest_comments_user.go:85-86 | one more selected record appends its CreatedAt and a newline to the dataset |
| Selection.FilterMembership | cmd/pullrequest_comments_user.go:79-90 | a record is selected if and only if it is in the input and matches |
| Selection.FilterMultiplicity | cmd/pullrequest_comments_user.go:79-90 | a matching record is kept as often as it occurs in the input; a non-matching one never |
| Selection.FilterIsSubsequence | cmd/pullrequest_comments_user.go:79-90 | the selection is the input at a strictly increasing list of positions, so input order is kept |
| Selection.FilterKeepsAll | cmd/pullrequest_comments_user.go:79-90 | filtering returns the input unchanged if and only if every record matches |
| Selection.FilterIdempotent | cmd/pullrequest_comments_user.go:79-90 | filtering the filtered records with the same flags changes nothing |
| Selection.DataSetLines | cmd/pullrequest_comments_user.go:84-86 | the dataset has one newline per record plus the newlines inside the dates |
| Selection.DataSetLineCount | cmd/pullrequest_comments_user.go:84-86 | when no date contains a newline, the dataset's line count is the number of selected records |
| Selection.NoNewlineConcat | cmd/pullrequest_comments_user.go:85 | dates without newlines contribute no lines |
| Selection.MatchesIsCalendarRange | cmd/repo_events_user.go:55-88 | once the flags parse and the record date is a rendered date, the string test is the calendar test first <= day <= last |
| Command.FileRoot | cmd/repo_events_user.go:110 | the stem `start-user-name` is the three parts joined by two dashes |
| Command.FileRootInjective | cmd/repo_events_user.go:110-118 | with the same start and user, stems are equal exactly when the names are, so the four buckets and the chart never share a file |
| Root.MonthDays | cmd/root.go:116-121 | the start month's series has DaysIn(month, year) entries |
| Root.GetTimeSeriesDataForTheMonth | cmd/root.go:112-122 | entry i is day i+1 of the start month; the end year and month play no part; there is no error case |
| Root.MonthDaysOrdered | cmd/root.go:117-120 | every entry is a valid date, and entries are strictly increasing in calendar order |
| Root.MonthDaysComplete | cmd/root.go:117-120 | a date is in the series if and only if it is a valid day of the start month |
| Root.StripCarriageReturn | cmd/root.go:130-132 | a csv line loses at most one trailing carriage return |
| Root.NonEmptyLines | cmd/root.go:130-132 | the csv reader skips empty lines and returns no empty record |
| Root.ReadRecords | cmd/root.go:130-135 | with one field per record, reading fails exactly when a non-empty line contains a comma, and the records returned contain no comma and no newline |
| Root.NonEmptyLinesNoSeparator | cmd/root.go:130-132 | records cut at newlines contain no newline |
| Root.RowDate | cmd/root.go:143-146 | a row reads when it has at least ten characters and they parse as a date, and the date renders back to those ten characters; otherwise it is a short-row or parse error |
| Root.FirstRowError | cmd/root.go:142-146 | the first failing row, in file order, yields a short-row or parse error |
| Root.FirstRowErrorNone | cmd/root.go:142-146 | there is no failing row if and only if every row reads |
| Root.FirstRowErrorAt | cmd/root.go:142-146 | when every row before j reads, a failing row j decides the error |
| Root.CountOn | cmd/root.go:142-151 | a day's count is at most the number of rows |
| Root.Tallies | cmd/root.go:139-152 | there is one tally per day of the start month |
| Root.TallyOfDay | cmd/root.go:140-150 | tally k-1 is the count of day k |
| Root.CountDay | cmd/root.go:140-151 | the inner loop returns the number of rows on the day, or the first failing row's error, whatever the day |
| Root.CountIntoMap | cmd/root.go:140-151 | one outer pass sets day i's entry to its count and leaves the other entries as they were, or fails with the first row error |
| Root.CountsMap | cmd/root.go:137-152 | the filled map holds exactly the days 1..DaysIn, each with its count, or the first row error ends the loop |
| Root.HoldsCountsStep | cmd/root.go:141-149 | setting day i to its tally extends the counted prefix of the month by one day |
| Root.ValuesInRemove | cmd/root.go:155-156 | reading out one key leaves the values of the remaining keys |
| Root.ValuesInRange | cmd/root.go:154-157 | a map holding t[k-1] under each key k holds t's values under keys 1..j |
| Root.DayMapHoldsTallies | cmd/root.go:137-158 | the values of the filled map are, as a multiset, the day tallies |
| Root.MapValues | cmd/root.go:154-157 | the values are read out in arbitrary key order: the result is a permutation of the map's values |
| Root.GetCountDataPerDay | cmd/root.go:124-159 | errors for an unreadable file, a multi-field row and the first unreadable row; otherwise DaysIn counts that are a permutation of the per-day tallies |
| Root.EmptyDataSetCountsZero | cmd/root.go:130-141 | an empty dataset reads as no rows and every day counts zero |
| Root.SumAdd | cmd/root.go:147-150 | position-wise sums add up |
| Root.SumOneHot | cmd/root.go:147-150 | a row adds one to at most one day |
| Root.TalliesSum | cmd/root.go:139-152 | the tallies sum to the number of rows dated in the start month; rows of other months count nowhere |
| Root.FormatChars | github/repos.go:73 | a rendered date holds only digits and dashes |
| Root.DataSetAvoids | cmd/pullrequest_comments_user.go:84-86 | a character absent from every date is absent from the dataset, unless it is the newline |
| Root.SplitDataSet | cmd/root.go:130-132 | splitting a dataset at newlines gives back the record dates |
| Root.DataSetSplits | cmd/root.go:130-132 | a dataset splits into its dates followed by one empty final piece |
| Root.NonEmptyLinesKeeps | cmd/root.go:130-132 | non-empty lines without a carriage return pass the reader unchanged |
| Root.RenderedRow | cmd/root.go:143-146 | a rendered date is a row the csv reader keeps as it is and whose date reads |
| Root.RenderedLines | cmd/root.go:130-146 | rows that are rendered dates all survive reading and all read |
| Root.ReadLines | cmd/root.go:130-135 | data that splits into readable lines and a final empty piece reads as exactly those lines |
| Root.ReadDataSet | cmd/root.go:124-146 | reading back a dataset that a command wrote gives one row per selected record, that record's date, and every row reads |
| Root.RenderedRowDate | cmd/root.go:143-147 | a rendered row is on day d exactly when it is d's rendering |
| Root.CountOnRendered | cmd/root.go:142-151 | for rendered rows, a day's count is how often its rendering occurs |
| Root.DataSetTallies | cmd/root.go:137-152 | charting a written dataset: each day's tally is the number of selected records created that day |
| Remote.EndIndex | github/repos.go:57-83 | the loop reads up to, and stops at, the first response that carries an error or has no next page |
| Remote.Paginate | github/repos.go:57-83 | the loop fails only with an error some response carried, and it succeeds only when no response it read carried one; `Remote.FollowIsPaginate` ties it to the forward reading |
| Remote.FollowIsPaginate | github/repos.go:57-83 | reading the responses forwards gives the loop's result: the ending error, or every item of every response read |
| Remote.FlattenCons | github/repos.go:75 | the items of a first page come before the items of the rest |
| Remote.FlattenLength | github/pulls.go:75-93 | the result holds one item per item of each response read, so its length is the sum of the page sizes |
| Remote.FlattenMembership | github/pulls.go:75-93 | an item is in the result if and only if some response read carries it |
| Remote.PaginateIgnoresLater | github/repos.go:77-79 | responses after the one that ends the loop are never looked at |
| Remote.EndIndexUnique | github/repos.go:57-83 | the first response that ends the loop is the end, whatever follows |
| Remote.ReachedEnd | github/repos.go:58-61 | a response that ends the loop, reached without passing the end, is the end and decides the result |
| Remote.OptionsSent | github/repos.go:52-81 | every request asks for the same page size; the first asks for page 0 and each later one for the previous response's NextPage |
| Remote.OptionsSentSnoc | github/repos.go:81 | each further request carries the next page of the response before it |
| Remote.Requests | github/repos.go:58 | every list request names the same owner and repository, with the page options sent |
| Remote.RequestsSnoc | github/repos.go:58 | one more list request appends its options to the requests sent |
| Remote.OwnerAndRepo | github/repos.go:46-50 | the split fails exactly when the path has fewer than two slashes, and owner and repo contain no slash |
| Remote.OwnerAndRepoOfPath | github/repos.go:46-50 | the path `/owner/repo` with any `/`-led tail yields that owner and repo |
| Remote.OwnerPieces | github/repos.go:46 | a path `/owner/...` splits into an empty piece, the owner, and the pieces after |
| Remote.RepoPieces | github/repos.go:46 | in `repo` followed by a `/`-led tail, the repo is the first piece |
| Repos.ToRepoEvents | github/repos.go:68-76 | one record per remote event, in order |
| Repos.ToRepoEvent | github/repos.go:69-74 | the record's CreatedAt parses back to the event's own calendar day; `Repos.ToRepoEventFields` gives the other fields |
| Repos.ToRepoEventFields | github/repos.go:69-74 | a record copies the actor login, repository name and type; the payload is empty; the date parses back to the event's day |
| Repos.ToRepoEventsAppend | github/repos.go:75 | mapping distributes over concatenation |
| Repos.FetchRepoEvents | github/repos.go:33-86 | nil-context, empty-URL, unparsable-URL and short-path errors come in that order and send no request; otherwise the requests are the page loop's requests and the result is the mapped items of every page read, or the first page error |
| Repos.ListAllEvents | github/repos.go:52-85 | the page loop sends one request per response read and returns the mapped items of all pages, in order, or the first error, discarding what it had gathered |
| Repos.AppendEvents | github/repos.go:68-76 | the inner loop appends one mapped record per event, in order |
| Pulls.ToPullComments | github/pulls.go:75-93 | one record per remote comment |
| Pulls.ToPullComment | github/pulls.go:76-91 | the record's CreatedAt parses back to the comment's own calendar day; `Pulls.ToPullCommentFields` gives the other fields |
| Pulls.ToPullCommentFields | github/pulls.go:76-91 | a record copies the author login, id, body and the seven reaction counters; the date parses back to the comment's day |
| Pulls.ToPullCommentsAppend | github/pulls.go:92 | mapping distributes over concatenation |
| Pulls.FetchPullRequestComments | github/pulls.go:33-102 | nil-context, unparsable-URL and short-path errors (the empty URL among them) send no request; otherwise the requests are the page loop's requests and the result is the mapped comments of every page read, or the first page error |
| Pulls.ListAllComments | github/pulls.go:49-101 | pages of 100 are requested in turn until NextPage is 0; the result is every mapped comment in page order, or the first error with nothing gathered |
| Pulls.AppendComments | github/pulls.go:75-93 | the inner loop appends one mapped record per comment, in order |
| Discussions.FirstMatch | github/discussions.go:43-48 | a page yields no id if and only if no team on it has the name, and an id it yields is that of a team with the name |
| Discussions.FirstMatchIsFirst | github/discussions.go:43-48 | the id found is that of the first team on the page with the name |
| Discussions.FirstMatchPrefix | github/discussions.go:43-47 | a match found in a prefix of the page is the page's match |
| Discussions.ScanPage | github/discussions.go:43-48 | the scan of one page sets the id to the first match and otherwise keeps the id found so far |
| Discussions.ResolvedIdLastMatch | github/discussions.go:38-53 | the resolved id comes from the last page that has a match at all |
| Discussions.ResolvedId | github/discussions.go:37-53 | a nonzero resolved id is the id of some team with the name on a page read; `Discussions.ResolvedIdLastMatch` and `Discussions.ResolvedIdNoMatch` say which |
| Discussions.TeamRequests | github/discussions.go:36-52 | every team list request names the organisation; the first asks for page 0 and each later one for the next page the previous response gave, 30 a page |
| Discussions.TeamRequestsSnoc | github/discussions.go:39-52 | one more team list request appends the organisation and the options that follow the response before it |
| Discussions.ResolvedIdNoMatch | github/discussions.go:37-56 | with no team of that name on any page the id stays 0 |
| Discussions.ResolveTeamId | github/discussions.go:36-53 | every team page is read until NextPage is 0; a later page's match overwrites an earlier one; a page error ends the loop with that error |
| Discussions.ToDiscussionComments | github/discussions.go:81-96 | one record per remote comment, in order |
| Discussions.ToDiscussionComment | github/discussions.go:93-95 | the record's CreatedAt parses back to the comment's own calendar day |
| Discussions.ToDiscussionCommentFields | github/discussions.go:82-95 | the handle is the author's login and the body is copied; id, title and the reaction total stay zero; the date parses back |
| Discussions.GatherComments | github/discussions.go:62-98 | the nested loop returns the comments of each discussion, discussion by discussion in order, or the first listing error with nothing gathered |
| Discussions.Gathered | github/discussions.go:64-98 | the comments are gathered exactly when every discussion's comments can be listed, and a failure carries the error of a discussion whose listing failed |
| Discussions.GatheredIsAllComments | github/discussions.go:64-98 | when every listing succeeds, the result is every comment of every discussion, in order |
| Discussions.GatheredFailsAt | github/discussions.go:65-68 | the first discussion whose comments cannot be listed fails the whole result with its error |
| Discussions.GatheredPrefixFails | github/discussions.go:65-68 | once a prefix of the discussions fails, so does the whole list |
| Discussions.GatheredShape | github/discussions.go:80-95 | every comment has id 0, an empty title and all seven reaction counters 0, because the local `reactions` is never assigned; its date parses |
| Discussions.FetchTeamDiscussionComments | github/discussions.go:30-101 | nil context fails first with no request; every team list request names `org`; a team-page error, an id of 0 ("TeamID is missing"), a discussion-listing error and a comment-listing error end the call in that order; otherwise the result is the gathered comments |
| RepoEventsCmd.OfType | cmd/repo_events_user.go:90-105 | a bucket holds only events of its type and is no longer than the selection; `RepoEventsCmd.OfTypeMembership` gives the converse |
| RepoEventsCmd.Untracked | cmd/repo_events_user.go:90-105 | the events that go into no bucket have none of the four types |
| RepoEventsCmd.OfTypeSnoc | cmd/repo_events_user.go:90-105 | one more event extends exactly the bucket of its type |
| RepoEventsCmd.RepoEvents | cmd/repo_events_user.go:51-123 | a bad start or end date ends the run before the fetch; a fetch error ends it with no files; otherwise the run prints the selection, writes four buckets named `start-user-<bucket>.csv` and charts them as `start-user-repoevents.png` |
| RepoEventsCmd.SelectEvents | cmd/repo_events_user.go:85-109 | the loop prints exactly the filtered events, and each bucket is the dataset of the printed events of its type |
| RepoEventsCmd.AppendIfType | cmd/repo_events_user.go:90-105 | an event adds its date line to a bucket exactly when it has that bucket's type |
| RepoEventsCmd.BucketsPartition | cmd/repo_events_user.go:90-105 | every event is counted once: in the bucket of its type or among the untracked |
| RepoEventsCmd.BucketLines | cmd/repo_events_user.go:91-104 | a bucket has one line per selected event of its type |
| RepoEventsCmd.BucketLineCounts | cmd/repo_events_user.go:85-109 | the four bucket line counts sum to at most the number of selected events, with equality exactly when every selected event has one of the four types |
| RepoEventsCmd.OfTypeMembers | cmd/repo_events_user.go:90-105 | a bucket holds only selected events |
| RepoEventsCmd.OfTypeMembership | cmd/repo_events_user.go:90-105 | an event is in the bucket of type t if and only if it is selected and has type t: CreateEvent goes to createbranch, PushEvent to pushes, and so on |
| RepoEventsCmd.OfTypeMultiplicity | cmd/repo_events_user.go:90-105 | an event of type t occurs in its bucket as often as in the selection |
| RepoEventsCmd.Buckets | cmd/repo_events_user.go:110-118 | there are four datasets, and no two go to the same file |
| RepoEventsCmd.FourLineChart | cmd/repo_events_user.go:110-119 | the chart reads four datasets, and its image file is none of them |
| Command.CsvFilesDiffer | cmd/repo_events_user.go:111-118 | datasets of different names get different `.csv` files |
| Command.ImageIsNotDataset | cmd/repo_events_user.go:110-119 | a `.png` image name never equals a `.csv` dataset name |
| RepoEventsCmd.UntrackedEmpty | cmd/repo_events_user.go:90-105 | no event is left out exactly when every event has a tracked type |
| RepoEventsCmd.MayWindowScenario | cmd/repo_events_user.go:85-88 | example: bob's push events of 2018-05-01, 2018-05-02 and 2018-06-01 filtered to the window 2018-05-01..2018-05-31 keep the first two |
| PullRequestCommentsCmd.PullRequestComments | cmd/pullrequest_comments_user.go:50-98 | a bad date ends the run before the fetch; a fetch error ends it with no dataset; otherwise the filtered comments are printed and their dataset written as `start-user-prcomments.csv` and charted as `.png` |
| PullRequestCommentsCmd.SelectComments | cmd/pullrequest_comments_user.go:76-90 | `filteredPRComments` is the filtered comments and the dataset is their date lines, in order |
| DiscussionCommentsCmd.TeamSplit | cmd/discussion_comments_user.go:52-57 | the team flag is rejected exactly when it has no `/`; org and team name contain no `/` |
| DiscussionCommentsCmd.TeamSplitOf | cmd/discussion_comments_user.go:52-57 | `org/team` with any `/`-led tail yields that org and team name; empty segments are accepted |
| DiscussionCommentsCmd.DiscussionComments | cmd/discussion_comments_user.go:51-101 | a team flag without `/` ends the run before the dates are parsed; a bad date ends it before the fetch; otherwise the selection is printed and its dataset written as `start-user-teamdiscussion.csv` and charted |
| DiscussionCommentsCmd.SelectComments | cmd/discussion_comments_user.go:82-94 | the printed comments are the filtered comments and the dataset is their date lines, in order |

## Left out

- Chart drawing (`drawChart`, `drawChartWithFourLines`, cmd/root.go:161-266) uses the go-chart library, PNG encoding and file creation. A run ends with a `Chart` value that records the drawing call's arguments. The chart itself and its error path are not modelled. The x axis and y values the drawing reads are modelled, by `GetTimeSeriesDataForTheMonth` and `GetCountDataPerDay`.
- File I/O (`writeDataSetToFile`, `getDataSetFromFile`, cmd/root.go:93-110) is plain I/O. Written files are listed in the run's outcome. Read contents are a parameter, with None for an unreadable file.
- Printing to standard output is not modelled as text. It is modelled as the printed sequence of records in the outcome. The header rows and the row formatting are not modelled.
- The cobra command tree, flag getters, `checkError`/`os.Exit`, `init` registrations, the access-token environment variable and `NewFetcher` are not modelled. They are framework wiring with no logic of their own.
- cmd/version.go is not part of this model. It is one HTTP request and a string comparison.
- The GitHub client, the network and `url.Parse` are outside the model. The server's answers and the result of `url.Parse` are parameters. Remote objects are total values, so nil-pointer panics on missing API fields are not modelled.
- Repos.FetchRepoEvents, Pulls.FetchPullRequestComments and Discussions.ResolveTeamId require that the server eventually answers with an error or with no next page (`Terminates`). The Go loops run forever against a server that always returns a next page.
- Pulls.FetchPullRequestComments requires that `url.Parse` of the empty URL gives the empty path, as Go's does.
- Root.ReadRecords: csv quoting is not modelled. The data must not contain `"`. Within that, the reader is modelled as splitting at newlines, dropping one trailing carriage return and skipping empty lines, and failing on a comma (a second field).
- Root.RowDate: a row shorter than ten characters makes `each[0][0:10]` panic in Go. The model turns that into the error `RowTooShort`. Rows are sliced by characters, not bytes, so a row with multi-byte characters before position ten is not modelled exactly.
- Root.GetCountDataPerDay: the counts are `float64` in Go. They are natural numbers here, since they only ever hold small integer tallies.
- Calendar.ParseDate: only years 0..9999 are modelled, the range in which the `2006` layout has exactly four digits.
- Remote timestamps: each remote `CreatedAt` (github/repos.go:72-73, github/pulls.go:86-87, github/discussions.go:93-94) is a point in time with its own location, and `.Format("2006-01-02")` renders the calendar day in that location. The model represents each remote timestamp by that rendered day (`createdAt: ValidDate` in remote.dfy), so times of day and zones are dropped. Only the parsed flags and the dataset rows read back at cmd/root.go:140-147 are midnight UTC in the source.
- Calendar.DaysIn requires a month in 1..12. The program calls it only with months of parsed dates.
- Strings.Compare compares characters (Unicode scalar values); Go compares UTF-8 bytes. The two orders agree, because UTF-8 preserves code point order.
- Discussions.FetchTeamDiscussionComments reads one page only of the discussion and comment listings, as the source does (nil options). The dead reaction-counter branch (github/discussions.go:84-92) is written out but never taken.
