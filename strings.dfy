/**
  The two operations of Go's `strings` package the program relies on:
  three-way lexicographic comparison (`strings.Compare`) and splitting on a
  one-character separator (`strings.Split`). Characters stand for the bytes
  Go compares; for the ASCII text handled here the two orders agree.
*/
module Strings {

  /** `strings.Compare(a, b)`: -1 if a sorts before b, 0 if equal, +1 if after. */
  function Compare(a: string, b: string): (r: int)
    ensures -1 <= r <= 1
  {
    if a == [] && b == [] then 0
    else if a == [] then -1
    else if b == [] then 1
    else if a[0] < b[0] then -1
    else if b[0] < a[0] then 1
    else Compare(a[1..], b[1..])
  }

  /** Lexicographic "a sorts no later than b". */
  predicate LexLe(a: string, b: string) {
    Compare(a, b) <= 0
  }

  lemma {:induction false} CompareZero(a: string, b: string)
    ensures Compare(a, b) == 0 <==> a == b
  {
    if a != [] && b != [] && a[0] == b[0] {
      CompareZero(a[1..], b[1..]);
      assert a == [a[0]] + a[1..];
      assert b == [b[0]] + b[1..];
    }
  }

  lemma {:induction false} CompareFlip(a: string, b: string)
    ensures Compare(b, a) == -Compare(a, b)
  {
    if a != [] && b != [] && a[0] == b[0] {
      CompareFlip(a[1..], b[1..]);
    }
  }

  lemma {:induction false} LexLeTransitive(a: string, b: string, c: string)
    requires LexLe(a, b) && LexLe(b, c)
    ensures LexLe(a, c)
  {
    if a != [] && b != [] && c != [] && a[0] == b[0] && b[0] == c[0] {
      LexLeTransitive(a[1..], b[1..], c[1..]);
    }
  }

  /** LexLe is a total order on strings. */
  lemma {:induction false} LexLeTotalOrder(a: string, b: string, c: string)
    ensures LexLe(a, a)
    ensures LexLe(a, b) && LexLe(b, a) ==> a == b
    ensures LexLe(a, b) && LexLe(b, c) ==> LexLe(a, c)
    ensures LexLe(a, b) || LexLe(b, a)
  {
    CompareZero(a, a);
    CompareZero(a, b);
    CompareFlip(a, b);
    if LexLe(a, b) && LexLe(b, c) {
      LexLeTransitive(a, b, c);
    }
  }

  /** Comparing two concatenations whose first parts have equal length: the first parts decide unless they are equal. */
  lemma {:induction false} CompareConcat(a1: string, a2: string, b1: string, b2: string)
    requires |a1| == |b1|
    ensures Compare(a1 + a2, b1 + b2) == if a1 == b1 then Compare(a2, b2) else Compare(a1, b1)
  {
    if a1 == [] {
      assert a1 + a2 == a2 && b1 + b2 == b2;
    } else {
      assert (a1 + a2)[0] == a1[0] && (b1 + b2)[0] == b1[0];
      assert (a1 + a2)[1..] == a1[1..] + a2;
      assert (b1 + b2)[1..] == b1[1..] + b2;
      CompareConcat(a1[1..], a2, b1[1..], b2);
      if a1[0] == b1[0] {
        assert a1 == [a1[0]] + a1[1..];
        assert b1 == [b1[0]] + b1[1..];
        assert a1 == b1 <==> a1[1..] == b1[1..];
      }
    }
  }

  /** A common prefix does not change the comparison. */
  lemma {:induction false} CompareCommonPrefix(p: string, x: string, y: string)
    ensures Compare(p + x, p + y) == Compare(x, y)
  {
    CompareConcat(p, x, p, y);
  }

  /**
    `strings.Split(s, string([sep]))`: the pieces of s between separators, in
    order. Split never returns an empty list: the empty string gives [""].
  */
  function Split(s: string, sep: char): (parts: seq<string>)
    ensures |parts| >= 1
    ensures forall i :: 0 <= i < |parts| ==> sep !in parts[i]
  {
    if s == [] then [[]]
    else
      var init := Split(s[..|s| - 1], sep);
      var c := s[|s| - 1];
      if c == sep then init + [[]]
      else init[..|init| - 1] + [init[|init| - 1] + [c]]
  }

  /** Glues pieces back together with the separator between them. */
  function Join(parts: seq<string>, sep: char): string
    requires |parts| >= 1
  {
    if |parts| == 1 then parts[0]
    else Join(parts[..|parts| - 1], sep) + [sep] + parts[|parts| - 1]
  }

  /** Split loses nothing: joining the pieces gives the original string. */
  lemma {:induction false} JoinSplit(s: string, sep: char)
    ensures Join(Split(s, sep), sep) == s
  {
    if s != [] {
      JoinSplit(s[..|s| - 1], sep);
      JoinSplitStep(s, sep);
    }
  }

  lemma {:induction false} JoinSplitStep(s: string, sep: char)
    requires s != [] && Join(Split(s[..|s| - 1], sep), sep) == s[..|s| - 1]
    ensures Join(Split(s, sep), sep) == s
  {
    var init := Split(s[..|s| - 1], sep);
    LastSplit(s);
    if s[|s| - 1] == sep {
      SplitSnocSeparator(s, sep);
      JoinSnoc(init, [], sep);
    } else {
      SplitSnocOther(s, sep);
      JoinExtendLast(init, s[|s| - 1], sep);
    }
  }

  /** A non-empty string is its front followed by its last character. */
  lemma {:induction false} LastSplit(s: string)
    requires s != []
    ensures s == s[..|s| - 1] + [s[|s| - 1]]
  {
  }

  lemma {:induction false} JoinSnoc(parts: seq<string>, p: string, sep: char)
    requires |parts| >= 1
    ensures Join(parts + [p], sep) == Join(parts, sep) + [sep] + p
  {
    assert (parts + [p])[..|parts|] == parts;
  }

  /** Extending the last piece extends the joined string. */
  lemma {:induction false} JoinExtendLast(parts: seq<string>, c: char, sep: char)
    requires |parts| >= 1
    ensures Join(parts[..|parts| - 1] + [parts[|parts| - 1] + [c]], sep) == Join(parts, sep) + [c]
  {
    var n := |parts|;
    if n > 1 {
      var front := parts[..n - 1];
      JoinSnoc(front, parts[n - 1] + [c], sep);
      JoinSnoc(front, parts[n - 1], sep);
      assert parts == front + [parts[n - 1]];
    }
  }

  /** The number of pieces is one more than the number of separators. */
  lemma {:induction false} SplitCount(s: string, sep: char)
    ensures |Split(s, sep)| == multiset(s)[sep] + 1
  {
    if s != [] {
      SplitCount(s[..|s| - 1], sep);
      assert s == s[..|s| - 1] + [s[|s| - 1]];
      assert multiset(s) == multiset(s[..|s| - 1]) + multiset{s[|s| - 1]};
    }
  }

  /** A string without the separator is one piece. */
  lemma {:induction false} SplitNoSeparator(s: string, sep: char)
    requires sep !in s
    ensures Split(s, sep) == [s]
  {
    if s != [] {
      SplitNoSeparator(s[..|s| - 1], sep);
      assert s == s[..|s| - 1] + [s[|s| - 1]];
    }
  }

  /** Splitting two strings joined by a separator splits each of them. */
  lemma {:induction false} SplitAround(s: string, t: string, sep: char)
    ensures Split(s + [sep] + t, sep) == Split(s, sep) + Split(t, sep)
  {
    var u := s + [sep] + t;
    if t == [] {
      assert u == s + [sep];
      assert u[..|u| - 1] == s;
    } else {
      var t' := t[..|t| - 1];
      var c := t[|t| - 1];
      SplitAround(s, t', sep);
      assert u[..|u| - 1] == s + [sep] + t';
      assert u[|u| - 1] == c;
      assert Split(u[..|u| - 1], sep) == Split(s, sep) + Split(t', sep);
      if c == sep {
        SplitSnocSeparator(u, sep);
        SplitSnocSeparator(t, sep);
      } else {
        SplitSnocOther(u, sep);
        SplitSnocOther(t, sep);
        SplitLastPiece(Split(s, sep), Split(t', sep), c);
      }
    }
  }

  lemma {:induction false} SplitSnocSeparator(u: string, sep: char)
    requires u != [] && u[|u| - 1] == sep
    ensures Split(u, sep) == Split(u[..|u| - 1], sep) + [[]]
  {
  }

  lemma {:induction false} SplitSnocOther(u: string, sep: char)
    requires u != [] && u[|u| - 1] != sep
    ensures var init := Split(u[..|u| - 1], sep);
      Split(u, sep) == init[..|init| - 1] + [init[|init| - 1] + [u[|u| - 1]]]
  {
  }

  /** Extending the last piece of a concatenation extends the last piece of its right part. */
  lemma {:induction false} SplitLastPiece(left: seq<string>, right: seq<string>, c: char)
    requires |right| >= 1
    ensures var init := left + right;
      init[..|init| - 1] + [init[|init| - 1] + [c]] == left + (right[..|right| - 1] + [right[|right| - 1] + [c]])
  {
    var init := left + right;
    assert init[..|init| - 1] == left + right[..|right| - 1];
  }
}
