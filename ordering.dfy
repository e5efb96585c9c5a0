/**
 * The two orders the queries use: ascending plate number (code-point
 * lexicographic order on strings) and ascending date.
 */
module Ordering {
  import opened Domain

  /** Strict lexicographic order: a proper prefix comes first, else the first differing character decides. */
  predicate Below(a: string, b: string)
    decreases |a|
  {
    if a == [] then b != []
    else if b == [] then false
    else a[0] < b[0] || (a[0] == b[0] && Below(a[1..], b[1..]))
  }

  lemma {:induction false} BelowIrreflexive(a: string)
    ensures !Below(a, a)
    decreases |a|
  {
    if a != [] {
      BelowIrreflexive(a[1..]);
    }
  }

  lemma {:induction false} BelowTransitive(a: string, b: string, c: string)
    requires Below(a, b) && Below(b, c)
    ensures Below(a, c)
    decreases |a|
  {
    if a != [] && a[0] == b[0] && b[0] == c[0] {
      BelowTransitive(a[1..], b[1..], c[1..]);
    }
  }

  lemma {:induction false} BelowTotal(a: string, b: string)
    requires a != b
    ensures Below(a, b) || Below(b, a)
    decreases |a|
  {
    if a != [] && b != [] && a[0] == b[0] {
      assert a == [a[0]] + a[1..] && b == [b[0]] + b[1..];
      BelowTotal(a[1..], b[1..]);
    }
  }

  lemma BelowAsymmetric(a: string, b: string)
    requires Below(a, b)
    ensures !Below(b, a)
  {
    if Below(b, a) {
      BelowTransitive(a, b, a);
      BelowIrreflexive(a);
    }
  }

  /** Strictly increasing, hence free of duplicates. */
  predicate StrictlyAscending(s: seq<string>)
  {
    forall i, j :: 0 <= i < j < |s| ==> Below(s[i], s[j])
  }

  /** Adds `x` to an ascending list of distinct strings, unless it is already there. */
  function InsertUnique(x: string, s: seq<string>): seq<string>
  {
    if s == [] then [x]
    else if x == s[0] then s
    else if Below(x, s[0]) then [x] + s
    else [s[0]] + InsertUnique(x, s[1..])
  }

  lemma {:induction false} InsertUniqueCorrect(x: string, s: seq<string>)
    requires StrictlyAscending(s)
    ensures StrictlyAscending(InsertUnique(x, s))
    ensures forall y :: y in InsertUnique(x, s) <==> y == x || y in s
  {
    if s == [] || x == s[0] {
    } else if Below(x, s[0]) {
      var r := [x] + s;
      forall i, j | 0 <= i < j < |r| ensures Below(r[i], r[j]) {
        if i == 0 && j > 1 {
          BelowTransitive(x, s[0], s[j - 1]);
        }
      }
    } else {
      BelowTotal(x, s[0]);
      var t := s[1..];
      assert StrictlyAscending(t) by {
        forall i, j | 0 <= i < j < |t| ensures Below(t[i], t[j]) {
          assert t[i] == s[i + 1] && t[j] == s[j + 1];
        }
      }
      InsertUniqueCorrect(x, t);
      var r := [s[0]] + InsertUnique(x, t);
      forall j | 0 < j < |r| ensures Below(s[0], r[j]) {
        assert r[j] in InsertUnique(x, t);
        if r[j] != x {
          var k :| 0 <= k < |t| && t[k] == r[j];
          assert s[k + 1] == r[j];
        }
      }
      assert s == [s[0]] + t;
    }
  }

  /** The distinct strings of `xs` in ascending order. */
  function SortedUnique(xs: seq<string>): seq<string>
  {
    if xs == [] then [] else InsertUnique(xs[0], SortedUnique(xs[1..]))
  }

  lemma {:induction false} SortedUniqueCorrect(xs: seq<string>)
    ensures StrictlyAscending(SortedUnique(xs))
    ensures forall y :: y in SortedUnique(xs) <==> y in xs
  {
    if xs != [] {
      SortedUniqueCorrect(xs[1..]);
      InsertUniqueCorrect(xs[0], SortedUnique(xs[1..]));
      assert xs == [xs[0]] + xs[1..];
    }
  }

  lemma HeadIsElement(s: seq<string>)
    ensures s != [] ==> s[0] in s
  {
  }

  /**
   * There is only one strictly ascending arrangement of a set of strings, so
   * any two such lists with the same elements are equal.
   */
  lemma {:induction false} AscendingIsUnique(a: seq<string>, b: seq<string>)
    requires StrictlyAscending(a) && StrictlyAscending(b)
    requires forall y :: y in a <==> y in b
    ensures a == b
    decreases |a|
  {
    if a == [] {
      HeadIsElement(b);
    } else {
      assert a[0] in b && b[0] in a;
      if a[0] != b[0] {
        var i :| 0 <= i < |b| && b[i] == a[0];
        var j :| 0 <= j < |a| && a[j] == b[0];
        assert Below(b[0], a[0]) && Below(a[0], b[0]);
        BelowAsymmetric(a[0], b[0]);
        assert false;
      }
      var a', b' := a[1..], b[1..];
      forall y ensures y in a' <==> y in b' {
        if y in a' {
          var k :| 0 <= k < |a'| && a'[k] == y;
          assert a[k + 1] == y && Below(a[0], y);
          BelowIrreflexive(y);
        }
        if y in b' {
          var k :| 0 <= k < |b'| && b'[k] == y;
          assert b[k + 1] == y && Below(b[0], y);
          BelowIrreflexive(y);
        }
        assert y in a <==> y == a[0] || y in a';
        assert y in b <==> y == b[0] || y in b';
      }
      assert StrictlyAscending(a') by {
        forall i, j | 0 <= i < j < |a'| ensures Below(a'[i], a'[j]) {
          assert a'[i] == a[i + 1] && a'[j] == a[j + 1];
        }
      }
      assert StrictlyAscending(b') by {
        forall i, j | 0 <= i < j < |b'| ensures Below(b'[i], b'[j]) {
          assert b'[i] == b[i + 1] && b'[j] == b[j + 1];
        }
      }
      AscendingIsUnique(a', b');
      assert a == [a[0]] + a' && b == [b[0]] + b';
    }
  }

  /** Non-decreasing by date. */
  predicate SortedByDate(s: seq<Row>)
  {
    forall i, j :: 0 <= i < j < |s| ==> s[i].date <= s[j].date
  }

  /** Places `x` before the first row that is not earlier than it. */
  function InsertByDate(x: Row, s: seq<Row>): seq<Row>
  {
    if s == [] || x.date <= s[0].date then [x] + s
    else [s[0]] + InsertByDate(x, s[1..])
  }

  /** Ascending by date; rows with equal dates keep their relative order. */
  function SortByDate(s: seq<Row>): seq<Row>
  {
    if s == [] then [] else InsertByDate(s[0], SortByDate(s[1..]))
  }

  /** A date at or below `x` and every row of `s` is at or below every row of the insertion. */
  lemma {:induction false} InsertByDateBound(x: Row, s: seq<Row>, d: Date)
    requires d <= x.date && forall k :: 0 <= k < |s| ==> d <= s[k].date
    ensures |InsertByDate(x, s)| == |s| + 1
    ensures forall k :: 0 <= k < |InsertByDate(x, s)| ==> d <= InsertByDate(x, s)[k].date
  {
    if s != [] && x.date > s[0].date {
      InsertByDateBound(x, s[1..], d);
    }
  }

  lemma {:induction false} InsertByDateSorted(x: Row, s: seq<Row>)
    requires SortedByDate(s)
    ensures SortedByDate(InsertByDate(x, s))
  {
    if s != [] && x.date > s[0].date {
      InsertByDateSorted(x, s[1..]);
      InsertByDateBound(x, s[1..], s[0].date);
    }
  }

  lemma {:induction false} InsertByDatePermutes(x: Row, s: seq<Row>)
    ensures multiset(InsertByDate(x, s)) == multiset(s) + multiset{x}
  {
    if s != [] && x.date > s[0].date {
      InsertByDatePermutes(x, s[1..]);
      assert s == [s[0]] + s[1..];
    }
  }

  /** Inserting into a date-sorted list keeps it sorted and adds exactly `x`. */
  lemma InsertByDateCorrect(x: Row, s: seq<Row>)
    requires SortedByDate(s)
    ensures SortedByDate(InsertByDate(x, s))
    ensures multiset(InsertByDate(x, s)) == multiset(s) + multiset{x}
  {
    InsertByDateSorted(x, s);
    InsertByDatePermutes(x, s);
  }

  lemma {:induction false} SortByDateCorrect(s: seq<Row>)
    ensures SortedByDate(SortByDate(s))
    ensures multiset(SortByDate(s)) == multiset(s)
  {
    if s != [] {
      SortByDateCorrect(s[1..]);
      InsertByDateCorrect(s[0], SortByDate(s[1..]));
      assert s == [s[0]] + s[1..];
    }
  }
}
