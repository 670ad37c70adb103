/**
 * The two orders the calendar's grouping sorts by, and the stable sorts it relies on.
 * `Array.prototype.sort` is stable; here it is an insertion sort that puts each element
 * before the first later element whose rank is not smaller.
 */
module Sorting {

  // ---------------------------------------------------------------------------
  // Sorting by an integer rank (the start instant of an event)

  ghost predicate SortedByRank<T>(s: seq<T>, rank: T -> int) {
    forall i, j :: 0 <= i < j < |s| ==> rank(s[i]) <= rank(s[j])
  }

  /** The subsequence of `s` whose elements have rank `t`, in order. */
  function WithRank<T>(s: seq<T>, rank: T -> int, t: int): seq<T> {
    if s == [] then []
    else (if rank(s[0]) == t then [s[0]] else []) + WithRank(s[1..], rank, t)
  }

  function InsertByRank<T>(x: T, s: seq<T>, rank: T -> int): seq<T> {
    if s == [] || rank(x) <= rank(s[0]) then [x] + s
    else [s[0]] + InsertByRank(x, s[1..], rank)
  }

  /** A stable sort by ascending rank. */
  function SortByRank<T>(s: seq<T>, rank: T -> int): seq<T> {
    if s == [] then [] else InsertByRank(s[0], SortByRank(s[1..], rank), rank)
  }

  lemma {:induction false} InsertByRankElements<T>(x: T, s: seq<T>, rank: T -> int)
    ensures multiset(InsertByRank(x, s, rank)) == multiset(s) + multiset{x}
  {
    if s != [] && rank(x) > rank(s[0]) {
      InsertByRankElements(x, s[1..], rank);
      assert s == [s[0]] + s[1..];
    }
  }

  lemma {:induction false} InsertByRankSorted<T>(x: T, s: seq<T>, rank: T -> int)
    requires SortedByRank(s, rank)
    ensures SortedByRank(InsertByRank(x, s, rank), rank)
  {
    if s != [] && rank(x) > rank(s[0]) {
      var rest := InsertByRank(x, s[1..], rank);
      InsertByRankSorted(x, s[1..], rank);
      InsertByRankElements(x, s[1..], rank);
      forall k | 0 <= k < |rest| ensures rank(s[0]) <= rank(rest[k]) {
        assert rest[k] in multiset(rest);
        assert rest[k] == x || rest[k] in multiset(s[1..]);
        if rest[k] != x {
          var m :| 1 <= m < |s| && s[m] == rest[k] by {
            assert rest[k] in s[1..];
          }
        }
      }
    }
  }

  lemma {:induction false} InsertByRankStable<T>(x: T, s: seq<T>, rank: T -> int, t: int)
    ensures WithRank(InsertByRank(x, s, rank), rank, t)
         == (if rank(x) == t then [x] else []) + WithRank(s, rank, t)
  {
    if s == [] || rank(x) <= rank(s[0]) {
      assert ([x] + s)[1..] == s;
    } else {
      var rest := InsertByRank(x, s[1..], rank);
      InsertByRankStable(x, s[1..], rank, t);
      assert ([s[0]] + rest)[1..] == rest;
    }
  }

  /**
   * The sort orders by rank, keeps every element, and keeps the input order among
   * elements of equal rank.
   */
  lemma {:induction false} SortByRankCorrect<T>(s: seq<T>, rank: T -> int)
    ensures SortedByRank(SortByRank(s, rank), rank)
    ensures multiset(SortByRank(s, rank)) == multiset(s)
    ensures forall t :: WithRank(SortByRank(s, rank), rank, t) == WithRank(s, rank, t)
  {
    if s != [] {
      var rest := SortByRank(s[1..], rank);
      SortByRankCorrect(s[1..], rank);
      InsertByRankSorted(s[0], rest, rank);
      InsertByRankElements(s[0], rest, rank);
      assert s == [s[0]] + s[1..];
      forall t ensures WithRank(SortByRank(s, rank), rank, t) == WithRank(s, rank, t) {
        InsertByRankStable(s[0], rest, rank, t);
      }
    }
  }

  // ---------------------------------------------------------------------------
  // Code-unit lexicographic order on strings (the order of the grouping keys)

  predicate StrLess(a: string, b: string) {
    if a == [] then b != []
    else if b == [] then false
    else if a[0] != b[0] then a[0] < b[0]
    else StrLess(a[1..], b[1..])
  }

  lemma {:induction false} StrLessIrreflexive(a: string)
    ensures !StrLess(a, a)
  {
    if a != [] {
      StrLessIrreflexive(a[1..]);
    }
  }

  lemma {:induction false} StrLessTransitive(a: string, b: string, c: string)
    requires StrLess(a, b) && StrLess(b, c)
    ensures StrLess(a, c)
  {
    if a != [] && b != [] && c != [] && a[0] == b[0] && b[0] == c[0] {
      StrLessTransitive(a[1..], b[1..], c[1..]);
    }
  }

  lemma {:induction false} StrLessTotal(a: string, b: string)
    requires a != b
    ensures StrLess(a, b) || StrLess(b, a)
  {
    if a != [] && b != [] && a[0] == b[0] {
      assert a == [a[0]] + a[1..] && b == [b[0]] + b[1..];
      StrLessTotal(a[1..], b[1..]);
    }
  }

  // ---------------------------------------------------------------------------
  // Sorting key-value entries by key

  ghost predicate StrictlyAscendingKeys<V>(s: seq<(string, V)>) {
    forall i, j :: 0 <= i < j < |s| ==> StrLess(s[i].0, s[j].0)
  }

  ghost predicate DistinctKeys<V>(s: seq<(string, V)>) {
    forall i, j :: 0 <= i < j < |s| ==> s[i].0 != s[j].0
  }

  function InsertByKey<V>(x: (string, V), s: seq<(string, V)>): seq<(string, V)> {
    if s == [] || !StrLess(s[0].0, x.0) then [x] + s
    else [s[0]] + InsertByKey(x, s[1..])
  }

  /** `entries.sort((a, b) => a[0].localeCompare(b[0]))`, with code-unit order for the comparison. */
  function SortByKey<V>(s: seq<(string, V)>): seq<(string, V)> {
    if s == [] then [] else InsertByKey(s[0], SortByKey(s[1..]))
  }

  lemma {:induction false} InsertByKeyElements<V>(x: (string, V), s: seq<(string, V)>)
    ensures multiset(InsertByKey(x, s)) == multiset(s) + multiset{x}
  {
    if s != [] && StrLess(s[0].0, x.0) {
      InsertByKeyElements(x, s[1..]);
      assert s == [s[0]] + s[1..];
    }
  }

  lemma {:induction false} InsertByKeyAscending<V>(x: (string, V), s: seq<(string, V)>)
    requires StrictlyAscendingKeys(s)
    requires forall k :: 0 <= k < |s| ==> s[k].0 != x.0
    ensures StrictlyAscendingKeys(InsertByKey(x, s))
  {
    if s == [] {
    } else if !StrLess(s[0].0, x.0) {
      StrLessTotal(x.0, s[0].0);
      forall k | 1 <= k < |s| ensures StrLess(x.0, s[k].0) {
        StrLessTransitive(x.0, s[0].0, s[k].0);
      }
    } else {
      var rest := InsertByKey(x, s[1..]);
      InsertByKeyAscending(x, s[1..]);
      InsertByKeyElements(x, s[1..]);
      forall k | 0 <= k < |rest| ensures StrLess(s[0].0, rest[k].0) {
        assert rest[k] in multiset(rest);
        if rest[k] != x {
          assert rest[k] in s[1..];
          var m :| 0 <= m < |s[1..]| && s[1..][m] == rest[k];
          assert s[m + 1] == rest[k];
        }
      }
    }
  }

  /** With distinct keys the entries come out strictly ascending by key, none lost or added. */
  lemma {:induction false} SortByKeyCorrect<V>(s: seq<(string, V)>)
    requires DistinctKeys(s)
    ensures StrictlyAscendingKeys(SortByKey(s))
    ensures multiset(SortByKey(s)) == multiset(s)
  {
    if s != [] {
      var rest := SortByKey(s[1..]);
      SortByKeyCorrect(s[1..]);
      InsertByKeyElements(s[0], rest);
      forall k | 0 <= k < |rest| ensures rest[k].0 != s[0].0 {
        assert rest[k] in multiset(s[1..]);
        var m :| 0 <= m < |s[1..]| && s[1..][m] == rest[k];
        assert s[m + 1] == rest[k];
      }
      InsertByKeyAscending(s[0], rest);
      assert s == [s[0]] + s[1..];
    }
  }
}
