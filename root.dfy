/**
  The counting half of the chart pipeline (cmd/root.go): the days of the
  start month, and the number of dataset rows that fall on each of them.
*/
module Root {
  import opened Wrappers
  import opened Strings
  import opened Calendar
  import opened Selection

  /** Only the first ten bytes of a dataset row are parsed as its date. */
  const NumberOfCharactersInDate: nat := 10

  /** Every day of month m of year y, first to last. */
  function MonthDays(y: int, m: int): (days: seq<Date>)
    requires 1 <= m <= 12
    ensures |days| == DaysIn(m, y)
  {
    seq(DaysIn(m, y), i requires 0 <= i < DaysIn(m, y) => Date(y, m, i + 1))
  }

  /**
    The x axis of the chart: one date per day of the start month. The end
    year and month are taken and ignored. The source's error result is
    always nil, so the model returns the series alone.
  */
  method GetTimeSeriesDataForTheMonth(startYear: int, endYear: int, startMonth: int, endMonth: int)
    returns (timeSeries: seq<Date>)
    requires 1 <= startMonth <= 12
    ensures timeSeries == MonthDays(startYear, startMonth)
  {
    timeSeries := [];
    var i := 1;
    while i <= DaysIn(startMonth, startYear)
      invariant 1 <= i <= DaysIn(startMonth, startYear) + 1
      invariant timeSeries == MonthDays(startYear, startMonth)[..i - 1]
    {
      var day := Date(startYear, startMonth, i);
      timeSeries := timeSeries + [day];
      i := i + 1;
    }
  }

  /** The series lists valid days, strictly increasing. */
  lemma {:induction false} MonthDaysOrdered(y: int, m: int)
    requires 0 <= y <= 9999 && 1 <= m <= 12
    ensures forall i :: 0 <= i < |MonthDays(y, m)| ==> Valid(MonthDays(y, m)[i])
    ensures forall i, j :: 0 <= i < j < |MonthDays(y, m)| ==> DateCompare(MonthDays(y, m)[i], MonthDays(y, m)[j]) == -1
  {
  }

  /** The series misses no day of the month and holds nothing else. */
  lemma {:induction false} MonthDaysComplete(y: int, m: int, d: Date)
    requires 0 <= y <= 9999 && 1 <= m <= 12
    ensures d in MonthDays(y, m) <==> Valid(d) && d.year == y && d.month == m
  {
    if Valid(d) && d.year == y && d.month == m {
      assert MonthDays(y, m)[d.day - 1] == d;
    }
  }

  /** Why a count could not be produced, with the message the source returns. */
  datatype CountError = FileUnreadable | RecordsMalformed | TimestampUnparsable | RowTooShort
  {
    /** RowTooShort stands for the runtime panic of slicing a short row. */
    function Message(): string {
      match this
      case FileUnreadable => "Could not get data from file"
      case RecordsMalformed => "Could not read in data records."
      case TimestampUnparsable => "Could not parse timestamps"
      case RowTooShort => "slice bounds out of range"
    }
  }

  /** A record line with its line terminator's carriage return removed. */
  function StripCarriageReturn(line: string): (r: string)
    ensures r == line || r + "\r" == line
  {
    if |line| > 0 && line[|line| - 1] == '\r' then line[..|line| - 1] else line
  }

  /** The non-empty lines, in order, as the csv reader returns them. */
  function NonEmptyLines(lines: seq<string>): (r: seq<string>)
    ensures |r| <= |lines|
    ensures forall i :: 0 <= i < |r| ==> r[i] != ""
  {
    if lines == [] then []
    else
      var init := NonEmptyLines(lines[..|lines| - 1]);
      var line := StripCarriageReturn(lines[|lines| - 1]);
      if line == "" then init else init + [line]
  }

  predicate HasComma(rows: seq<string>) {
    exists i :: 0 <= i < |rows| && ',' in rows[i]
  }

  /**
    The csv reader with one field per record and the default settings:
    empty lines are skipped and a line holding a comma has more than one
    field, which fails the whole read.
  */
  function ReadRecords(data: string): (r: Result<seq<string>, CountError>)
    requires '"' !in data
    ensures r.Failure? <==> HasComma(NonEmptyLines(Split(data, '\n')))
    ensures r.Failure? ==> r.error == RecordsMalformed
    ensures r.Success? ==> forall i :: 0 <= i < |r.value| ==> r.value[i] != "" && ',' !in r.value[i] && '\n' !in r.value[i]
  {
    var rows := NonEmptyLines(Split(data, '\n'));
    NonEmptyLinesNoSeparator(Split(data, '\n'));
    if HasComma(rows) then Failure(RecordsMalformed) else Success(rows)
  }

  lemma {:induction false} NonEmptyLinesNoSeparator(lines: seq<string>)
    requires forall i :: 0 <= i < |lines| ==> '\n' !in lines[i]
    ensures forall i :: 0 <= i < |NonEmptyLines(lines)| ==> '\n' !in NonEmptyLines(lines)[i]
  {
    if lines != [] {
      NonEmptyLinesNoSeparator(lines[..|lines| - 1]);
    }
  }

  /** The date of one row: its first ten bytes in `2006-01-02` layout. */
  function RowDate(row: string): (r: Result<ValidDate, CountError>)
    ensures r.Failure? ==> r.error in {RowTooShort, TimestampUnparsable}
    ensures r.Success? <==> |row| >= NumberOfCharactersInDate && ParseDate(row[..NumberOfCharactersInDate]).Some?
    ensures r.Success? ==> Format(r.value) == row[..NumberOfCharactersInDate]
  {
    if |row| < NumberOfCharactersInDate then Failure(RowTooShort)
    else match ParseDate(row[..NumberOfCharactersInDate])
      case None => Failure(TimestampUnparsable)
      case Some(d) =>
        FormatParse(row[..NumberOfCharactersInDate]);
        Success(d)
  }

  /** The error of the first row, in file order, whose date cannot be read. */
  function FirstRowError(rows: seq<string>): (r: Option<CountError>)
    ensures r.Some? ==> r.value in {RowTooShort, TimestampUnparsable}
  {
    if rows == [] then None
    else match FirstRowError(rows[..|rows| - 1])
      case Some(e) => Some(e)
      case None =>
        var last := RowDate(rows[|rows| - 1]);
        if last.Failure? then Some(last.error) else None
  }

  /** No row fails to read exactly when there is no first such row. */
  lemma {:induction false} FirstRowErrorNone(rows: seq<string>)
    ensures FirstRowError(rows) == None <==> forall i :: 0 <= i < |rows| ==> RowDate(rows[i]).Success?
  {
    if rows != [] {
      var init := rows[..|rows| - 1];
      var last := rows[|rows| - 1];
      FirstRowErrorNone(init);
      assert FirstRowError(rows) == None <==> FirstRowError(init) == None && RowDate(last).Success?;
      assert rows == init + [last];
    }
  }

  /** If every row before j reads and row j does not, row j decides the error. */
  lemma {:induction false} FirstRowErrorAt(rows: seq<string>, j: nat)
    requires j < |rows|
    requires FirstRowError(rows[..j]) == None && RowDate(rows[j]).Failure?
    ensures FirstRowError(rows) == Some(RowDate(rows[j]).error)
  {
    if j < |rows| - 1 {
      var init := rows[..|rows| - 1];
      assert init[..j] == rows[..j];
      assert init[j] == rows[j];
      FirstRowErrorAt(init, j);
    } else {
      assert rows[..|rows| - 1] == rows[..j];
    }
  }

  /** How many rows lie on the given day. */
  function CountOn(rows: seq<string>, day: Date): (n: nat)
    ensures n <= |rows|
  {
    if rows == [] then 0
    else CountOn(rows[..|rows| - 1], day) + (if RowDate(rows[|rows| - 1]) == Success(day) then 1 else 0)
  }

  /** The count of every day of the month, in day order. */
  function Tallies(rows: seq<string>, y: int, m: int): (t: seq<nat>)
    requires 1 <= m <= 12
    ensures |t| == DaysIn(m, y)
  {
    var days := MonthDays(y, m);
    seq(|days|, i requires 0 <= i < |days| => CountOn(rows, days[i]))
  }

  /** A set that is not empty has a member. */
  lemma {:induction false} NonEmptyHasMember(s: set<int>)
    requires s != {}
    ensures exists k :: k in s
  {
    if forall k :: k !in s {
      assert false;
    }
  }

  /** Some key of a non-empty key set. */
  ghost function Pick(keys: set<int>): (k: int)
    requires keys != {}
    ensures k in keys
  {
    NonEmptyHasMember(keys);
    var k :| k in keys;
    k
  }

  /** The multiset of the values a map holds under the given keys. */
  ghost function ValuesIn(m: map<int, nat>, keys: set<int>): multiset<nat>
    requires keys <= m.Keys
    decreases keys
  {
    if keys == {} then multiset{}
    else
      var k := Pick(keys);
      multiset{m[k]} + ValuesIn(m, keys - {k})
  }

  lemma {:induction false} ValuesInRemove(m: map<int, nat>, keys: set<int>, k: int)
    requires keys <= m.Keys && k in keys
    ensures ValuesIn(m, keys) == multiset{m[k]} + ValuesIn(m, keys - {k})
    decreases keys
  {
    var j := Pick(keys);
    if j != k {
      ValuesInRemove(m, keys - {j}, k);
      ValuesInRemove(m, keys - {k}, j);
      assert keys - {j} - {k} == keys - {k} - {j};
    }
  }

  /** The day numbers 1..j. */
  function KeysUpTo(j: nat): (keys: set<int>)
    ensures forall k :: k in keys <==> 1 <= k <= j
  {
    if j == 0 then {} else KeysUpTo(j - 1) + {j}
  }

  /** Keys 1..j of a map holding t[k - 1] under each key k hold the values of t[..j]. */
  lemma {:induction false} ValuesInRange(m: map<int, nat>, t: seq<nat>, j: nat)
    requires j <= |t|
    requires forall k :: 1 <= k <= |t| ==> k in m && m[k] == t[k - 1]
    ensures KeysUpTo(j) <= m.Keys
    ensures ValuesIn(m, KeysUpTo(j)) == multiset(t[..j])
  {
    if j > 0 {
      ValuesInRange(m, t, j - 1);
      RangeStep(m, t, j, KeysUpTo(j), KeysUpTo(j - 1));
    }
  }

  lemma {:induction false} RangeStep(m: map<int, nat>, t: seq<nat>, j: nat, keys: set<int>, smaller: set<int>)
    requires 1 <= j <= |t| && j in m && m[j] == t[j - 1]
    requires smaller <= m.Keys && j !in smaller && keys == smaller + {j}
    requires ValuesIn(m, smaller) == multiset(t[..j - 1])
    ensures keys <= m.Keys && ValuesIn(m, keys) == multiset(t[..j])
  {
    assert keys - {j} == smaller;
    ValuesInRemove(m, keys, j);
    PrefixMultiset(t, j);
  }

  lemma {:induction false} PrefixMultiset(t: seq<nat>, j: nat)
    requires 1 <= j <= |t|
    ensures multiset(t[..j]) == multiset(t[..j - 1]) + multiset{t[j - 1]}
  {
    assert t[..j] == t[..j - 1] + [t[j - 1]];
  }

  /** The tally at position k - 1 is the count of day k. */
  lemma {:induction false} TallyOfDay(rows: seq<string>, y: int, month: int, k: int)
    requires 1 <= month <= 12 && 1 <= k <= DaysIn(month, y)
    ensures Tallies(rows, y, month)[k - 1] == CountOn(rows, Date(y, month, k))
  {
    assert MonthDays(y, month)[k - 1] == Date(y, month, k);
  }

  /** The map the outer loop fills holds exactly the day tallies. */
  lemma {:induction false} DayMapHoldsTallies(m: map<int, nat>, rows: seq<string>, y: int, month: int)
    requires 1 <= month <= 12
    requires HoldsCounts(m, Tallies(rows, y, month), DaysIn(month, y) + 1)
    ensures multiset(Tallies(rows, y, month)) == ValuesIn(m, m.Keys)
  {
    var t := Tallies(rows, y, month);
    ValuesInRange(m, t, |t|);
    MapKeysUpTo(m, |t|);
    assert t[..|t|] == t;
  }

  lemma {:induction false} MapKeysUpTo(m: map<int, nat>, n: nat)
    requires forall k :: k in m <==> 1 <= k < n + 1
    ensures m.Keys == KeysUpTo(n)
  {
  }

  lemma {:induction false} UpdateTwice(m: map<int, nat>, k: int, a: nat, b: nat)
    ensures m[k := a][k := b] == m[k := b]
  {
  }

  /** The map holds the count of each day before day i, and nothing else. */
  ghost predicate HoldsCounts(m: map<int, nat>, t: seq<nat>, i: int) {
    && i <= |t| + 1
    && (forall k :: k in m <==> 1 <= k < i)
    && (forall k :: 1 <= k < i ==> m[k] == t[k - 1])
  }

  lemma {:induction false} HoldsCountsStep(m: map<int, nat>, t: seq<nat>, i: int)
    requires 1 <= i <= |t| && HoldsCounts(m, t, i)
    ensures HoldsCounts(m[i := t[i - 1]], t, i + 1)
  {
  }

  /**
    The count of one day: the inner loop over the rows. Every row's date is
    parsed, so a row that cannot be read fails the count whatever the day.
  */
  method CountDay(records: seq<string>, day: Date) returns (r: Result<nat, CountError>)
    ensures FirstRowError(records) == None ==> r == Success(CountOn(records, day))
    ensures FirstRowError(records).Some? ==> r == Failure(FirstRowError(records).value)
  {
    var count := 0;
    var j := 0;
    while j < |records|
      invariant 0 <= j <= |records|
      invariant FirstRowError(records[..j]) == None
      invariant count == CountOn(records[..j], day)
    {
      var t := RowDate(records[j]);
      if t.Failure? {
        FirstRowErrorAt(records, j);
        return Failure(t.error);
      }
      assert records[..j + 1][..j] == records[..j];
      if t.value == day {
        count := count + 1;
      }
      j := j + 1;
    }
    assert records[..j] == records;
    return Success(count);
  }

  /** The map from day number to count that the outer loop fills. */
  method CountsMap(records: seq<string>, startYear: int, startMonth: int) returns (r: Result<map<int, nat>, CountError>)
    requires 1 <= startMonth <= 12
    ensures FirstRowError(records).Some? ==> r == Failure(FirstRowError(records).value)
    ensures FirstRowError(records) == None ==> r.Success?
    ensures r.Success? ==> HoldsCounts(r.value, Tallies(records, startYear, startMonth), DaysIn(startMonth, startYear) + 1)
  {
    var countsMap: map<int, nat> := map[];
    var n := DaysIn(startMonth, startYear);
    var i := 1;
    while i <= n
      invariant 1 <= i <= n + 1
      invariant i > 1 ==> FirstRowError(records) == None
      invariant HoldsCounts(countsMap, Tallies(records, startYear, startMonth), i)
    {
      var next := CountIntoMap(records, countsMap, startYear, startMonth, i);
      if next.Failure? {
        return Failure(next.error);
      }
      countsMap := next.value;
      i := i + 1;
    }
    return Success(countsMap);
  }

  /** One pass of the outer loop: day i's entry is zeroed, then the inner loop adds its count. */
  method CountIntoMap(records: seq<string>, countsMap: map<int, nat>, startYear: int, startMonth: int, i: int)
    returns (r: Result<map<int, nat>, CountError>)
    requires 1 <= startMonth <= 12 && 1 <= i <= DaysIn(startMonth, startYear)
    requires HoldsCounts(countsMap, Tallies(records, startYear, startMonth), i)
    ensures FirstRowError(records).Some? ==> r == Failure(FirstRowError(records).value)
    ensures FirstRowError(records) == None ==>
      r.Success? && HoldsCounts(r.value, Tallies(records, startYear, startMonth), i + 1)
  {
    var day := Date(startYear, startMonth, i);
    var m := countsMap[i := 0];
    var count := CountDay(records, day);
    if count.Failure? {
      return Failure(count.error);
    }
    m := m[i := m[i] + count.value];
    ghost var t := Tallies(records, startYear, startMonth);
    assert count.value == t[i - 1] by {
      TallyOfDay(records, startYear, startMonth, i);
    }
    UpdateTwice(countsMap, i, 0, count.value);
    HoldsCountsStep(countsMap, t, i);
    return Success(m);
  }

  /** The values of a map, in the map's (unspecified) iteration order. */
  method MapValues(countsMap: map<int, nat>) returns (counts: seq<nat>)
    ensures multiset(counts) == ValuesIn(countsMap, countsMap.Keys)
  {
    var keys := countsMap.Keys;
    counts := [];
    while keys != {}
      invariant keys <= countsMap.Keys
      invariant multiset(counts) + ValuesIn(countsMap, keys) == ValuesIn(countsMap, countsMap.Keys)
      decreases |keys|
    {
      NonEmptyHasMember(keys);
      var k :| k in keys;
      ValuesInRemove(countsMap, keys, k);
      counts := counts + [countsMap[k]];
      keys := keys - {k};
    }
  }

  /**
    `getCountDataPerDay`. The file's contents are a parameter (None when it
    cannot be read). The counts are read out of a map from day number to
    count in the map's iteration order, which is unspecified: they come
    back as a permutation of the day tallies, one per day of the month.
  */
  method GetCountDataPerDay(startYear: int, startMonth: int, file: Option<string>)
    returns (r: Result<seq<nat>, CountError>)
    requires 1 <= startMonth <= 12
    requires file.Some? ==> '"' !in file.value
    ensures file.None? ==> r == Failure(FileUnreadable)
    ensures file.Some? && ReadRecords(file.value).Failure? ==> r == Failure(RecordsMalformed)
    ensures file.Some? && ReadRecords(file.value).Success? ==>
      var rows := ReadRecords(file.value).value;
      match FirstRowError(rows)
      case Some(e) => r == Failure(e)
      case None => r.Success? && multiset(r.value) == multiset(Tallies(rows, startYear, startMonth))
    ensures r.Success? ==> |r.value| == DaysIn(startMonth, startYear)
  {
    if file.None? {
      return Failure(FileUnreadable);
    }
    var read := ReadRecords(file.value);
    if read.Failure? {
      return Failure(RecordsMalformed);
    }
    var records := read.value;
    var countsMap := CountsMap(records, startYear, startMonth);
    if countsMap.Failure? {
      return Failure(countsMap.error);
    }
    DayMapHoldsTallies(countsMap.value, records, startYear, startMonth);
    var counts := MapValues(countsMap.value);
    return Success(counts);
  }

  /** An empty dataset file reads as no rows, and every day of the month then counts zero. */
  lemma {:induction false} EmptyDataSetCountsZero(y: int, m: int)
    requires 1 <= m <= 12
    ensures ReadRecords("") == Success([])
    ensures FirstRowError([]) == None
    ensures Tallies([], y, m) == seq(DaysIn(m, y), i => 0)
  {
  }

  function Sum(s: seq<nat>): nat {
    if s == [] then 0 else Sum(s[..|s| - 1]) + s[|s| - 1]
  }

  /** How many rows carry a readable date in month m of year y. */
  function InMonth(rows: seq<string>, y: int, m: int): (n: nat)
    ensures n <= |rows|
  {
    if rows == [] then 0
    else
      var d := RowDate(rows[|rows| - 1]);
      InMonth(rows[..|rows| - 1], y, m) + (if d.Success? && d.value.year == y && d.value.month == m then 1 else 0)
  }

  lemma {:induction false} SumAdd(a: seq<nat>, b: seq<nat>, c: seq<nat>)
    requires |a| == |b| == |c|
    requires forall i :: 0 <= i < |c| ==> c[i] == a[i] + b[i]
    ensures Sum(c) == Sum(a) + Sum(b)
  {
    if c != [] {
      var n := |c| - 1;
      SumAdd(a[..n], b[..n], c[..n]);
    }
  }

  lemma {:induction false} SumOneHot(b: seq<nat>, p: int)
    requires forall i :: 0 <= i < |b| ==> b[i] == if i == p then 1 else 0
    ensures Sum(b) == if 0 <= p < |b| then 1 else 0
  {
    if b != [] {
      SumOneHot(b[..|b| - 1], p);
    }
  }

  /**
    Every row dated in the start month is counted on exactly one day of the
    chart, and no other row is counted: the tallies add up to the rows of
    the month.
  */
  lemma {:induction false} TalliesSum(rows: seq<string>, y: int, m: int)
    requires 1 <= m <= 12
    ensures Sum(Tallies(rows, y, m)) == InMonth(rows, y, m)
  {
    var c := Tallies(rows, y, m);
    if rows == [] {
      SumOneHot(c, -1);
    } else {
      var init := rows[..|rows| - 1];
      var d := RowDate(rows[|rows| - 1]);
      TalliesSum(init, y, m);
      var a := Tallies(init, y, m);
      var p := if d.Success? && d.value.year == y && d.value.month == m then d.value.day - 1 else -1;
      var b := seq(|c|, i requires 0 <= i < |c| => if i == p then 1 else 0);
      forall i | 0 <= i < |c|
        ensures c[i] == a[i] + b[i]
      {
        assert MonthDays(y, m)[i] == Date(y, m, i + 1);
      }
      SumAdd(a, b, c);
      SumOneHot(b, p);
    }
  }

  /** A rendered date is ten digits and dashes. */
  lemma {:induction false} FormatChars(d: ValidDate)
    ensures forall c :: c in Format(d) ==> IsDigit(c) || c == '-'
  {
    var s := Format(d);
    assert s == Digits(d.year, 4) + "-" + Digits(d.month, 2) + "-" + Digits(d.day, 2);
  }

  /** A character that no date holds is absent from the dataset unless it is the newline. */
  lemma {:induction false} DataSetAvoids<T>(xs: seq<T>, key: T -> Stamp, c: char)
    requires c != '\n'
    requires forall i :: 0 <= i < |xs| ==> c !in key(xs[i]).createdAt
    ensures c !in DataSet(xs, key)
  {
    if xs != [] {
      DataSetAvoids(xs[..|xs| - 1], key, c);
    }
  }

  lemma {:induction false} SplitDataSet<T>(xs: seq<T>, key: T -> Stamp, t: string)
    requires forall i :: 0 <= i < |xs| ==> '\n' !in key(xs[i]).createdAt
    ensures Split(DataSet(xs, key) + t, '\n') == Dates(xs, key) + Split(t, '\n')
  {
    if xs == [] {
      assert DataSet(xs, key) + t == t;
      assert Dates(xs, key) == [];
    } else {
      var init := xs[..|xs| - 1];
      var d := key(xs[|xs| - 1]).createdAt;
      SplitDataSet(init, key, d + "\n" + t);
      assert DataSet(xs, key) == DataSet(init, key) + (d + "\n");
      assert Dates(xs, key) == Dates(init, key) + [d];
      SplitLineThen(DataSet(init, key), d, t, Dates(init, key));
    }
  }

  /** A line without an inner newline splits off as one piece after what precedes it. */
  lemma {:induction false} SplitLineThen(before: string, d: string, t: string, pieces: seq<string>)
    requires '\n' !in d
    requires Split(before + (d + "\n" + t), '\n') == pieces + Split(d + "\n" + t, '\n')
    ensures Split(before + (d + "\n") + t, '\n') == pieces + [d] + Split(t, '\n')
  {
    SplitAround(d, t, '\n');
    assert d + "\n" + t == d + ['\n'] + t;
    SplitNoSeparator(d, '\n');
    assert before + (d + "\n") + t == before + (d + "\n" + t);
  }

  lemma {:induction false} NonEmptyLinesKeeps(lines: seq<string>)
    requires forall i :: 0 <= i < |lines| ==> lines[i] != "" && lines[i][|lines[i]| - 1] != '\r'
    ensures NonEmptyLines(lines) == lines
  {
    if lines != [] {
      NonEmptyLinesKeeps(lines[..|lines| - 1]);
    }
  }

  /** A rendered date is a row that reads and that the csv reader keeps as it is. */
  lemma {:induction false} RenderedRow(s: string)
    requires ParseDate(s).Some?
    ensures s != "" && s[|s| - 1] != '\r'
    ensures '"' !in s && ',' !in s && '\n' !in s
    ensures RowDate(s).Success?
  {
    FormatParse(s);
    FormatChars(ParseDate(s).value);
    assert s[..NumberOfCharactersInDate] == s;
  }

  lemma {:induction false} RenderedDatesAvoid<T>(xs: seq<T>, key: T -> Stamp)
    requires forall i :: 0 <= i < |xs| ==> ParseDate(key(xs[i]).createdAt).Some?
    ensures forall i :: 0 <= i < |xs| ==> '"' !in key(xs[i]).createdAt && '\n' !in key(xs[i]).createdAt
  {
    forall i | 0 <= i < |xs|
      ensures '"' !in key(xs[i]).createdAt && '\n' !in key(xs[i]).createdAt
    {
      RenderedRow(key(xs[i]).createdAt);
    }
  }

  lemma {:induction false} RenderedLines(lines: seq<string>)
    requires forall i :: 0 <= i < |lines| ==> ParseDate(lines[i]).Some?
    ensures forall i :: 0 <= i < |lines| ==> lines[i] != "" && lines[i][|lines[i]| - 1] != '\r' && ',' !in lines[i]
    ensures forall i :: 0 <= i < |lines| ==> RowDate(lines[i]).Success?
  {
    forall i | 0 <= i < |lines|
      ensures lines[i] != "" && lines[i][|lines[i]| - 1] != '\r' && ',' !in lines[i]
      ensures RowDate(lines[i]).Success?
    {
      RenderedRow(lines[i]);
    }
  }

  /**
    Reading back a dataset that a command wrote for records with rendered
    dates gives one row per record, each row being that record's date, and
    every row reads.
  */
  lemma {:induction false} ReadDataSet<T>(xs: seq<T>, key: T -> Stamp)
    requires forall i :: 0 <= i < |xs| ==> ParseDate(key(xs[i]).createdAt).Some?
    ensures '"' !in DataSet(xs, key)
    ensures ReadRecords(DataSet(xs, key)) == Success(Dates(xs, key))
    ensures FirstRowError(Dates(xs, key)) == None
  {
    var dates := Dates(xs, key);
    var data := DataSet(xs, key);
    RenderedDatesAvoid(xs, key);
    DataSetAvoids(xs, key, '"');
    DataSetSplits(xs, key);
    RenderedLines(dates);
    ReadLines(data, dates);
    FirstRowErrorNone(dates);
  }

  lemma {:induction false} DataSetSplits<T>(xs: seq<T>, key: T -> Stamp)
    requires forall i :: 0 <= i < |xs| ==> '\n' !in key(xs[i]).createdAt
    ensures Split(DataSet(xs, key), '\n') == Dates(xs, key) + [""]
  {
    SplitDataSet(xs, key, "");
    assert DataSet(xs, key) + "" == DataSet(xs, key);
  }

  /** Data that splits into the given lines and a final empty piece reads as those lines. */
  lemma {:induction false} ReadLines(data: string, lines: seq<string>)
    requires '"' !in data
    requires Split(data, '\n') == lines + [""]
    requires forall i :: 0 <= i < |lines| ==> lines[i] != "" && lines[i][|lines[i]| - 1] != '\r' && ',' !in lines[i]
    ensures ReadRecords(data) == Success(lines)
  {
    NonEmptyLinesKeeps(lines);
    assert (lines + [""])[..|lines|] == lines;
    assert NonEmptyLines(lines + [""]) == lines;
  }

  lemma {:induction false} MultisetLast(rows: seq<string>)
    requires rows != []
    ensures multiset(rows) == multiset(rows[..|rows| - 1]) + multiset{rows[|rows| - 1]}
  {
    assert rows == rows[..|rows| - 1] + [rows[|rows| - 1]];
  }

  /** A rendered date reads as a given day exactly when it is that day's rendering. */
  lemma {:induction false} RenderedRowDate(r: string, day: ValidDate)
    requires ParseDate(r).Some?
    ensures RowDate(r) == Success(day) <==> r == Format(day)
  {
    assert |r| == NumberOfCharactersInDate && r[..NumberOfCharactersInDate] == r by {
      FormatParse(r);
    }
    ParseDateIff(r, day);
  }

  /** For rows that are rendered dates, the count of a day is the number of rows equal to it. */
  lemma {:induction false} CountOnRendered(rows: seq<string>, day: ValidDate)
    requires forall i :: 0 <= i < |rows| ==> ParseDate(rows[i]).Some?
    ensures CountOn(rows, day) == multiset(rows)[Format(day)]
  {
    if rows != [] {
      var init := rows[..|rows| - 1];
      var r := rows[|rows| - 1];
      CountOnRendered(init, day);
      MultisetLast(rows);
      RenderedRowDate(r, day);
    }
  }

  /**
    The chart of a dataset a command wrote: the tally of each day of the
    month is the number of selected records created on that day.
  */
  lemma {:induction false} DataSetTallies<T>(xs: seq<T>, key: T -> Stamp, y: int, m: int)
    requires 0 <= y <= 9999 && 1 <= m <= 12
    requires forall i :: 0 <= i < |xs| ==> ParseDate(key(xs[i]).createdAt).Some?
    ensures forall i :: 0 <= i < DaysIn(m, y) ==>
      Tallies(Dates(xs, key), y, m)[i] == multiset(Dates(xs, key))[Format(MonthDays(y, m)[i])]
  {
    var dates := Dates(xs, key);
    assert forall i :: 0 <= i < |dates| ==> ParseDate(dates[i]).Some?;
    forall i | 0 <= i < DaysIn(m, y)
      ensures Tallies(dates, y, m)[i] == multiset(dates)[Format(MonthDays(y, m)[i])]
    {
      CountOnRendered(dates, MonthDays(y, m)[i]);
    }
  }
}
