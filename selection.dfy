/**
  The record selection the three commands share (cmd/repo_events_user.go,
  cmd/pullrequest_comments_user.go, cmd/discussion_comments_user.go): keep,
  in input order, the records whose handle is the user and whose date lies
  between the start and end flags, both inclusive, under string comparison;
  and the dataset written for them, one `CreatedAt + "\n"` per record.
*/
module Selection {
  import opened Wrappers
  import opened Strings
  import opened Calendar

  /** Who made a record and on which day (a `YYYY-MM-DD` string). */
  datatype Stamp = Stamp(handle: string, createdAt: string)

  /** The --user, --start and --end flags. */
  datatype Window = Window(user: string, start: string, end: string)

  predicate Matches(s: Stamp, w: Window) {
    s.handle == w.user && LexLe(w.start, s.createdAt) && LexLe(s.createdAt, w.end)
  }

  /** Only a window whose start sorts no later than its end admits a record. */
  lemma {:induction false} MatchesNeedsOrderedWindow(s: Stamp, w: Window)
    requires Matches(s, w)
    ensures LexLe(w.start, w.end)
  {
    LexLeTransitive(w.start, s.createdAt, w.end);
  }

  /** The selected records, in input order. */
  function Filter<T>(xs: seq<T>, key: T -> Stamp, w: Window): (r: seq<T>)
    ensures |r| <= |xs|
    ensures forall i :: 0 <= i < |r| ==> Matches(key(r[i]), w)
  {
    if xs == [] then []
    else
      var init := Filter(xs[..|xs| - 1], key, w);
      var x := xs[|xs| - 1];
      if Matches(key(x), w) then init + [x] else init
  }

  /** The bytes the commands append for one selected record. */
  function Line(date: string): string {
    date + "\n"
  }

  /** The dataset file contents for a list of records. */
  function DataSet<T>(xs: seq<T>, key: T -> Stamp): (r: string)
  {
    if xs == [] then []
    else DataSet(xs[..|xs| - 1], key) + Line(key(xs[|xs| - 1]).createdAt)
  }

  /** A dataset is empty exactly when no record was selected, and otherwise ends with a newline. */
  lemma {:induction false} DataSetShape<T>(xs: seq<T>, key: T -> Stamp)
    ensures DataSet(xs, key) == [] <==> xs == []
    ensures DataSet(xs, key) != [] ==> DataSet(xs, key)[|DataSet(xs, key)| - 1] == '\n'
  {
    if xs != [] {
      var d := DataSet(xs[..|xs| - 1], key) + Line(key(xs[|xs| - 1]).createdAt);
      assert d[|d| - 1] == '\n';
    }
  }

  /** The dates of a list of records, in order. */
  function Dates<T>(xs: seq<T>, key: T -> Stamp): (r: seq<string>)
    ensures |r| == |xs|
    ensures forall i :: 0 <= i < |xs| ==> r[i] == key(xs[i]).createdAt
  {
    if xs == [] then []
    else Dates(xs[..|xs| - 1], key) + [key(xs[|xs| - 1]).createdAt]
  }

  function LineCount(s: string): nat {
    multiset(s)['\n']
  }

  /**
    The three nested `strings.Compare` tests of the command loops decide
    exactly Matches: `Compare(user, handle) == 0`, `Compare(createdAt,
    start) != -1` and `Compare(createdAt, end) != 1`.
  */
  lemma {:induction false} ComparisonsDecideMatch(s: Stamp, w: Window)
    ensures (Compare(w.user, s.handle) == 0 && Compare(s.createdAt, w.start) != -1 && Compare(s.createdAt, w.end) != 1)
        <==> Matches(s, w)
  {
    CompareZero(w.user, s.handle);
    CompareFlip(s.createdAt, w.start);
  }

  lemma {:induction false} FilterSnoc<T>(xs: seq<T>, x: T, key: T -> Stamp, w: Window)
    ensures Filter(xs + [x], key, w) == Filter(xs, key, w) + (if Matches(key(x), w) then [x] else [])
  {
    assert (xs + [x])[..|xs|] == xs;
  }

  lemma {:induction false} DataSetSnoc<T>(xs: seq<T>, x: T, key: T -> Stamp)
    ensures DataSet(xs + [x], key) == DataSet(xs, key) + key(x).createdAt + "\n"
  {
    assert (xs + [x])[..|xs|] == xs;
  }

  /** A record is selected iff it is in the input and matches. */
  lemma {:induction false} FilterMembership<T>(xs: seq<T>, key: T -> Stamp, w: Window, x: T)
    ensures x in Filter(xs, key, w) <==> x in xs && Matches(key(x), w)
  {
    if xs != [] {
      var init := xs[..|xs| - 1];
      FilterMembership(init, key, w, x);
      assert xs == init + [xs[|xs| - 1]];
    }
  }

  /** Each matching record is kept as often as it occurs; no other record is kept. */
  lemma {:induction false} FilterMultiplicity<T>(xs: seq<T>, key: T -> Stamp, w: Window, x: T)
    ensures multiset(Filter(xs, key, w))[x] == if Matches(key(x), w) then multiset(xs)[x] else 0
  {
    if xs != [] {
      var init := xs[..|xs| - 1];
      FilterMultiplicity(init, key, w, x);
      assert xs == init + [xs[|xs| - 1]];
      assert multiset(xs) == multiset(init) + multiset{xs[|xs| - 1]};
    }
  }

  /** `idx` lists, in increasing order, the input positions that r is made of. */
  ghost predicate SubsequenceAt<T>(r: seq<T>, xs: seq<T>, idx: seq<int>) {
    && |idx| == |r|
    && (forall k :: 0 <= k < |idx| ==> 0 <= idx[k] < |xs| && r[k] == xs[idx[k]])
    && (forall k, l :: 0 <= k < l < |idx| ==> idx[k] < idx[l])
  }

  /** The selection is an order-preserving subsequence of the input. */
  lemma {:induction false} FilterIsSubsequence<T>(xs: seq<T>, key: T -> Stamp, w: Window) returns (idx: seq<int>)
    ensures SubsequenceAt(Filter(xs, key, w), xs, idx)
  {
    if xs == [] {
      idx := [];
    } else {
      var init := xs[..|xs| - 1];
      var x := xs[|xs| - 1];
      idx := FilterIsSubsequence(init, key, w);
      if Matches(key(x), w) {
        idx := idx + [|xs| - 1];
      }
    }
  }

  /** Filtering keeps the input unchanged iff every record matches. */
  lemma {:induction false} FilterKeepsAll<T>(xs: seq<T>, key: T -> Stamp, w: Window)
    ensures Filter(xs, key, w) == xs <==> forall i :: 0 <= i < |xs| ==> Matches(key(xs[i]), w)
  {
    if xs != [] {
      var init := xs[..|xs| - 1];
      FilterKeepsAll(init, key, w);
      assert xs == init + [xs[|xs| - 1]];
    }
  }

  /** Filtering twice with the same flags is filtering once. */
  lemma {:induction false} FilterIdempotent<T>(xs: seq<T>, key: T -> Stamp, w: Window)
    ensures Filter(Filter(xs, key, w), key, w) == Filter(xs, key, w)
  {
    FilterKeepsAll(Filter(xs, key, w), key, w);
  }

  /** The dataset is the selected dates, each followed by a newline. */
  lemma {:induction false} DataSetLines<T>(xs: seq<T>, key: T -> Stamp)
    ensures LineCount(DataSet(xs, key)) == |xs| + LineCount(Concat(Dates(xs, key)))
  {
    if xs != [] {
      var init := xs[..|xs| - 1];
      DataSetLines(init, key);
      var d := key(xs[|xs| - 1]).createdAt;
      assert Dates(xs, key) == Dates(init, key) + [d];
      assert Concat(Dates(xs, key)) == Concat(Dates(init, key)) + d;
    }
  }

  /** All strings of a list, end to end. */
  function Concat(ss: seq<string>): string {
    if ss == [] then [] else Concat(ss[..|ss| - 1]) + ss[|ss| - 1]
  }

  /** With dates that contain no newline, the dataset has one line per record. */
  lemma {:induction false} DataSetLineCount<T>(xs: seq<T>, key: T -> Stamp)
    requires forall i :: 0 <= i < |xs| ==> '\n' !in key(xs[i]).createdAt
    ensures LineCount(DataSet(xs, key)) == |xs|
  {
    DataSetLines(xs, key);
    NoNewlineConcat(Dates(xs, key));
  }

  lemma {:induction false} NoNewlineConcat(ss: seq<string>)
    requires forall i :: 0 <= i < |ss| ==> '\n' !in ss[i]
    ensures LineCount(Concat(ss)) == 0
  {
    if ss != [] {
      NoNewlineConcat(ss[..|ss| - 1]);
    }
  }

  /**
    Why string comparison is sound: once the flags have passed
    `time.Parse("2006-01-02", ...)` and the record date is a rendered date,
    the string test is the calendar test.
  */
  lemma {:induction false} MatchesIsCalendarRange(s: Stamp, w: Window, first: ValidDate, last: ValidDate, day: ValidDate)
    requires ParseDate(w.start) == Some(first) && ParseDate(w.end) == Some(last)
    requires s.createdAt == Format(day)
    ensures Matches(s, w) <==> s.handle == w.user && OnOrBefore(first, day) && OnOrBefore(day, last)
  {
    FormatParse(w.start);
    FormatParse(w.end);
    FormatOrder(first, day);
    FormatOrder(day, last);
  }
}
