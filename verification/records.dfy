/** Queries over stored collections: the first record a lookup finds, the
    records a filter keeps (in store order), and how many there are. */
module Records {

  /** The position of the first element satisfying `p`, or `|s|` if none. */
  function FirstIndex<T>(s: seq<T>, p: T -> bool): (i: nat)
    ensures i <= |s|
    ensures i < |s| ==> p(s[i])
    ensures forall j :: 0 <= j < i ==> !p(s[j])
  {
    if |s| == 0 then 0
    else if p(s[0]) then 0
    else
      var i := FirstIndex(s[1..], p);
      assert forall j :: 1 <= j < |s| ==> s[j] == s[1..][j - 1];
      i + 1
  }

  /** `FirstIndex` is the position of a match with none before it. */
  lemma FirstIndexIs<T>(s: seq<T>, p: T -> bool, k: nat)
    requires k <= |s| && (k < |s| ==> p(s[k]))
    requires forall j :: 0 <= j < k ==> !p(s[j])
    ensures FirstIndex(s, p) == k
  {
  }

  /** The elements satisfying `p`, in their original order. */
  function Filter<T>(s: seq<T>, p: T -> bool): (r: seq<T>)
    ensures |r| <= |s|
    ensures forall i :: 0 <= i < |r| ==> p(r[i])
    ensures forall i :: 0 <= i < |r| ==> r[i] in s
    ensures forall i :: 0 <= i < |s| && p(s[i]) ==> s[i] in r
  {
    if |s| == 0 then []
    else
      var rest := Filter(s[1..], p);
      assert forall i :: 1 <= i < |s| ==> s[i] == s[1..][i - 1];
      if p(s[0]) then [s[0]] + rest else rest
  }

  /** How many elements satisfy `p`. */
  function Count<T>(s: seq<T>, p: T -> bool): (n: nat)
    ensures n <= |s|
    ensures n == 0 <==> forall i :: 0 <= i < |s| ==> !p(s[i])
  {
    var r := Filter(s, p);
    assert r != [] ==> r[0] in s;
    |r|
  }

  /** `r` keeps some of the elements of `s`, in the same order. */
  predicate IsSubsequence<T(==)>(r: seq<T>, s: seq<T>)
    decreases |s|
  {
    |r| == 0 ||
    (|s| > 0 && if r[0] == s[0] then IsSubsequence(r[1..], s[1..]) else IsSubsequence(r, s[1..]))
  }

  /** A filter keeps the order of what it keeps. */
  lemma {:induction false} FilterIsSubsequence<T>(s: seq<T>, p: T -> bool)
    ensures IsSubsequence(Filter(s, p), s)
    decreases |s|
  {
    if |s| > 0 {
      FilterIsSubsequence(s[1..], p);
      var rest := Filter(s[1..], p);
      if p(s[0]) {
        assert ([s[0]] + rest)[1..] == rest;
      } else {
        assert |rest| > 0 ==> rest[0] != s[0];
      }
    }
  }

  /** Filtering twice keeps what both filters keep. */
  lemma {:induction false} FilterTwice<T>(s: seq<T>, p: T -> bool, q: T -> bool)
    ensures Filter(Filter(s, p), q) == Filter(s, x => p(x) && q(x))
    decreases |s|
  {
    if |s| > 0 {
      FilterTwice(s[1..], p, q);
      var rest := Filter(s[1..], p);
      if p(s[0]) {
        assert ([s[0]] + rest)[1..] == rest;
      }
    }
  }

  /** Filters that agree on every element keep the same elements. */
  lemma {:induction false} FilterSame<T>(s: seq<T>, p: T -> bool, q: T -> bool)
    requires forall i :: 0 <= i < |s| ==> p(s[i]) == q(s[i])
    ensures Filter(s, p) == Filter(s, q)
    decreases |s|
  {
    if |s| > 0 {
      FilterSame(s[1..], p, q);
    }
  }

  /** Filtering by `p` and then by `q` is filtering by any `r` that holds
      exactly when both do. */
  lemma {:induction false} FilterBoth<T>(s: seq<T>, p: T -> bool, q: T -> bool, r: T -> bool)
    requires forall i :: 0 <= i < |s| ==> r(s[i]) == (p(s[i]) && q(s[i]))
    ensures Filter(Filter(s, p), q) == Filter(s, r)
    decreases |s|
  {
    if |s| > 0 {
      FilterBoth(s[1..], p, q, r);
      var rest := Filter(s[1..], p);
      if p(s[0]) {
        assert ([s[0]] + rest)[1..] == rest;
      }
    }
  }

  /** A filter that keeps everything changes nothing. */
  lemma {:induction false} FilterAll<T>(s: seq<T>, p: T -> bool)
    requires forall i :: 0 <= i < |s| ==> p(s[i])
    ensures Filter(s, p) == s
    decreases |s|
  {
    if |s| > 0 {
      FilterAll(s[1..], p);
    }
  }

  /** Filtering distributes over concatenation. */
  lemma {:induction false} FilterAppend<T>(a: seq<T>, b: seq<T>, p: T -> bool)
    ensures Filter(a + b, p) == Filter(a, p) + Filter(b, p)
    decreases |a|
  {
    if |a| == 0 {
      assert a + b == b;
    } else {
      assert (a + b)[1..] == a[1..] + b;
      FilterAppend(a[1..], b, p);
    }
  }

  /** A kept element's place among what the filter keeps is the number of
      kept elements before it. */
  lemma FilterRank<T>(s: seq<T>, p: T -> bool, j: nat)
    requires j < |s| && p(s[j])
    ensures Count(s[..j], p) < |Filter(s, p)|
    ensures Filter(s, p)[Count(s[..j], p)] == s[j]
  {
    FilterAround(s, p, j);
  }

  /** Newest first, a kept element comes after exactly the kept elements
      stored after it. */
  lemma FilterRankReversed<T>(s: seq<T>, p: T -> bool, j: nat)
    requires j < |s| && p(s[j])
    ensures Count(s[j + 1..], p) < |Filter(s, p)|
    ensures Reverse(Filter(s, p))[Count(s[j + 1..], p)] == s[j]
  {
    FilterAround(s, p, j);
  }

  /** What a filter keeps around a kept element. */
  lemma FilterAround<T>(s: seq<T>, p: T -> bool, j: nat)
    requires j < |s| && p(s[j])
    ensures Filter(s, p) == Filter(s[..j], p) + [s[j]] + Filter(s[j + 1..], p)
  {
    var tail := s[j..];
    assert s == s[..j] + tail;
    FilterAppend(s[..j], tail, p);
    assert tail[0] == s[j] && tail[1..] == s[j + 1..];
    assert Filter(tail, p) == [s[j]] + Filter(s[j + 1..], p);
  }

  /** No element occurs twice. */
  predicate Distinct<T(==)>(s: seq<T>) {
    forall i, j :: 0 <= i < j < |s| ==> s[i] != s[j]
  }

  /** A filter of distinct elements keeps them distinct. */
  lemma {:induction false} FilterKeepsDistinct<T>(s: seq<T>, p: T -> bool)
    requires Distinct(s)
    ensures Distinct(Filter(s, p))
    decreases |s|
  {
    if |s| > 0 {
      var tail := s[1..];
      assert Distinct(tail) by {
        forall i, j | 0 <= i < j < |tail| ensures tail[i] != tail[j] {
          assert tail[i] == s[i + 1] && tail[j] == s[j + 1];
        }
      }
      FilterKeepsDistinct(tail, p);
      var rest := Filter(tail, p);
      forall k | 0 <= k < |rest| ensures rest[k] != s[0] {
        var m :| 0 <= m < |tail| && tail[m] == rest[k];
        assert s[m + 1] == rest[k];
      }
      if p(s[0]) {
        var r := [s[0]] + rest;
        assert Filter(s, p) == r;
        forall i, j | 0 <= i < j < |r| ensures r[i] != r[j] {
          assert r[j] == rest[j - 1];
          if i > 0 { assert r[i] == rest[i - 1]; }
        }
      } else {
        assert Filter(s, p) == rest;
      }
    }
  }

  /** No two elements share a key: a store with a unique index on `key`. */
  predicate UniqueBy<T, K(==)>(s: seq<T>, key: T -> K) {
    forall i, j :: 0 <= i < j < |s| ==> key(s[i]) != key(s[j])
  }

  /** A filter of a uniquely keyed store keeps the keys unique. */
  lemma {:induction false} FilterKeepsUniqueBy<T, K>(s: seq<T>, p: T -> bool, key: T -> K)
    requires UniqueBy(s, key)
    ensures UniqueBy(Filter(s, p), key)
    decreases |s|
  {
    if |s| > 0 {
      var tail := s[1..];
      assert UniqueBy(tail, key) by {
        forall i, j | 0 <= i < j < |tail| ensures key(tail[i]) != key(tail[j]) {
          assert tail[i] == s[i + 1] && tail[j] == s[j + 1];
        }
      }
      FilterKeepsUniqueBy(tail, p, key);
      var rest := Filter(tail, p);
      forall k | 0 <= k < |rest| ensures key(rest[k]) != key(s[0]) {
        var m :| 0 <= m < |tail| && tail[m] == rest[k];
        assert s[m + 1] == rest[k];
      }
      if p(s[0]) {
        var r := [s[0]] + rest;
        assert Filter(s, p) == r;
        forall i, j | 0 <= i < j < |r| ensures key(r[i]) != key(r[j]) {
          assert r[j] == rest[j - 1];
          if i > 0 { assert r[i] == rest[i - 1]; }
        }
      } else {
        assert Filter(s, p) == rest;
      }
    }
  }

  /** The elements in the opposite order. */
  function Reverse<T>(s: seq<T>): (r: seq<T>)
    ensures |r| == |s|
    ensures forall i :: 0 <= i < |s| ==> r[i] == s[|s| - 1 - i]
  {
    if |s| == 0 then [] else [s[|s| - 1]] + Reverse(s[..|s| - 1])
  }

  /** Reversing a sequence keeps as many matches. */
  lemma {:induction false} FilterReverseCount<T>(s: seq<T>, p: T -> bool)
    ensures |Filter(Reverse(s), p)| == Count(s, p)
    decreases |s|
  {
    if |s| > 0 {
      var n := |s| - 1;
      FilterReverseCount(s[..n], p);
      assert s == s[..n] + [s[n]];
      FilterAppend(s[..n], [s[n]], p);
      FilterAppend([s[n]], Reverse(s[..n]), p);
    }
  }

  /** Keys never decrease along `s`: a store kept in creation order, keyed
      by creation time. */
  predicate Ascending<T>(s: seq<T>, key: T -> int) {
    forall i, j :: 0 <= i < j < |s| ==> key(s[i]) <= key(s[j])
  }

  /** Keys never increase along `s`: newest first. */
  predicate Descending<T>(s: seq<T>, key: T -> int) {
    forall i, j :: 0 <= i < j < |s| ==> key(s[j]) <= key(s[i])
  }

  /** Reversing a store in creation order lists it newest first. */
  lemma ReverseOfAscending<T>(s: seq<T>, key: T -> int)
    requires Ascending(s, key)
    ensures Descending(Reverse(s), key)
  {
  }

  /** A filter keeps the creation order of what it keeps. */
  lemma {:induction false} FilterAscending<T>(s: seq<T>, p: T -> bool, key: T -> int)
    requires Ascending(s, key)
    ensures Ascending(Filter(s, p), key)
    decreases |s|
  {
    if |s| > 0 {
      var tail := s[1..];
      assert Ascending(tail, key) by {
        forall i, j | 0 <= i < j < |tail| ensures key(tail[i]) <= key(tail[j]) {
          assert tail[i] == s[i + 1] && tail[j] == s[j + 1];
        }
      }
      FilterAscending(tail, p, key);
      var rest := Filter(tail, p);
      if p(s[0]) {
        var r := [s[0]] + rest;
        forall i, j | 0 <= i < j < |r| ensures key(r[i]) <= key(r[j]) {
          if i == 0 {
            assert r[j] == rest[j - 1] && rest[j - 1] in tail;
            var k :| 0 <= k < |tail| && tail[k] == rest[j - 1];
            assert tail[k] == s[k + 1];
          } else {
            assert r[i] == rest[i - 1] && r[j] == rest[j - 1];
          }
        }
      }
    }
  }

  /** Dropping the first kept element keeps a subsequence. */
  lemma {:induction false} SubsequenceDropHead<T>(a: seq<T>, s: seq<T>)
    requires |a| > 0 && IsSubsequence(a, s)
    ensures IsSubsequence(a[1..], s)
    decreases |s|
  {
    var b := a[1..];
    if a[0] == s[0] {
      if |b| > 0 && b[0] == s[0] {
        SubsequenceDropHead(b, s[1..]);
      }
    } else {
      SubsequenceDropHead(a, s[1..]);
      if |b| > 0 && b[0] == s[0] {
        SubsequenceDropHead(b, s[1..]);
      }
    }
  }

  /** Keeping some of what was kept keeps the original order. */
  lemma {:induction false} SubsequenceTransitive<T>(a: seq<T>, b: seq<T>, c: seq<T>)
    requires IsSubsequence(a, b) && IsSubsequence(b, c)
    ensures IsSubsequence(a, c)
    decreases |c|
  {
    if |a| > 0 {
      if b[0] == c[0] {
        if a[0] == b[0] {
          SubsequenceTransitive(a[1..], b[1..], c[1..]);
        } else {
          SubsequenceTransitive(a, b[1..], c[1..]);
        }
      } else {
        SubsequenceTransitive(a, b, c[1..]);
        if a[0] == c[0] {
          SubsequenceDropHead(a, c[1..]);
        }
      }
    }
  }

  /** A prefix keeps the order. */
  lemma {:induction false} PrefixIsSubsequence<T>(s: seq<T>, n: nat)
    requires n <= |s|
    ensures IsSubsequence(s[..n], s)
    decreases n
  {
    if n > 0 {
      PrefixIsSubsequence(s[1..], n - 1);
      assert s[..n][1..] == s[1..][..n - 1];
    }
  }

  /** `s` with `x` put before the first element whose key is larger than
      or equal to its own. */
  function InsertBy<T>(x: T, s: seq<T>, key: T -> int): (r: seq<T>)
    requires Ascending(s, key)
    ensures Ascending(r, key)
    ensures multiset(r) == multiset(s) + multiset{x}
    decreases |s|
  {
    if |s| == 0 || key(x) <= key(s[0]) then
      [x] + s
    else
      var tail := s[1..];
      assert s == [s[0]] + tail;
      assert Ascending(tail, key) by {
        forall i, j | 0 <= i < j < |tail| ensures key(tail[i]) <= key(tail[j]) {
          assert tail[i] == s[i + 1] && tail[j] == s[j + 1];
        }
      }
      var rest := InsertBy(x, tail, key);
      forall y | y in multiset(rest) ensures key(s[0]) <= key(y) {
        if y != x {
          assert y in multiset(tail);
          var k :| 0 <= k < |tail| && tail[k] == y;
          assert tail[k] == s[k + 1];
        }
      }
      PrependLowest(s[0], rest, key);
      [s[0]] + rest
  }

  /** An element no larger than any of an ascending sequence can lead it. */
  lemma PrependLowest<T>(h: T, s: seq<T>, key: T -> int)
    requires Ascending(s, key)
    requires forall y | y in multiset(s) :: key(h) <= key(y)
    ensures Ascending([h] + s, key)
  {
    var r := [h] + s;
    forall i, j | 0 <= i < j < |r| ensures key(r[i]) <= key(r[j]) {
      assert r[j] == s[j - 1] && s[j - 1] in multiset(s);
      if i > 0 {
        assert r[i] == s[i - 1];
      }
    }
  }

  /** Insertion sort by an integer key: the elements of `s`, each as often
      as in `s`, with keys never decreasing. */
  function SortBy<T>(s: seq<T>, key: T -> int): (r: seq<T>)
    ensures Ascending(r, key)
    ensures multiset(r) == multiset(s)
    ensures |r| == |s|
    decreases |s|
  {
    if |s| == 0 then []
    else
      assert s == [s[0]] + s[1..];
      var r := InsertBy(s[0], SortBy(s[1..], key), key);
      assert |r| == |multiset(r)|;
      r
  }

  /** A filter keeps each element it keeps as often as the input holds it. */
  lemma {:induction false} FilterMultiset<T>(s: seq<T>, p: T -> bool)
    ensures forall x :: multiset(Filter(s, p))[x] == if p(x) then multiset(s)[x] else 0
    decreases |s|
  {
    if |s| > 0 {
      FilterMultiset(s[1..], p);
      assert s == [s[0]] + s[1..];
    }
  }

  /** How a query treats a condition on a path its schema does not
      declare. Mongoose's `strictQuery` either drops the condition, so the
      query matches every document, or keeps it, so it matches none: no
      stored document has the path, because the strict schema dropped it
      on create. The repositories do not pin the setting. */
  datatype StrictQuery = DropsPath | KeepsPath

  /** The documents a filter on one undeclared path matches. */
  function UndeclaredMatches<T>(s: seq<T>, q: StrictQuery): (r: seq<T>)
    ensures q == DropsPath ==> r == s
    ensures q == KeepsPath ==> r == []
  {
    if q == DropsPath then s else []
  }
}
