/** Filtering and ordering of rows, the two things every query of the stores does. */
module Seqs {

  /** `le` is total and transitive, so sorting by it is meaningful. */
  ghost predicate TotalPreorder<T(!new)>(le: (T, T) -> bool) {
    && (forall a, b :: le(a, b) || le(b, a))
    && (forall a, b, c :: le(a, b) && le(b, c) ==> le(a, c))
  }

  predicate Sorted<T>(s: seq<T>, le: (T, T) -> bool) {
    forall i, j :: 0 <= i < j < |s| ==> le(s[i], s[j])
  }

  /** The rows of `s` that satisfy `p`, in their original order (a WHERE clause). */
  function Filter<T(!new)>(s: seq<T>, p: T -> bool): (r: seq<T>)
    ensures |r| <= |s|
    ensures forall x :: x in r <==> x in s && p(x)
    ensures forall x :: multiset(r)[x] == if p(x) then multiset(s)[x] else 0
  {
    if s == [] then []
    else
      assert s == [s[0]] + s[1..];
      (if p(s[0]) then [s[0]] else []) + Filter(s[1..], p)
  }

  function Insert<T>(x: T, s: seq<T>, le: (T, T) -> bool): (r: seq<T>)
    ensures multiset(r) == multiset(s) + multiset{x}
  {
    if s == [] then [x]
    else if le(x, s[0]) then [x] + s
    else
      assert s == [s[0]] + s[1..];
      [s[0]] + Insert(x, s[1..], le)
  }

  /** Insertion sort by `le` (an ORDER BY clause); equal keys keep no promised order. */
  function Sort<T>(s: seq<T>, le: (T, T) -> bool): (r: seq<T>)
    ensures multiset(r) == multiset(s)
    ensures |r| == |s|
  {
    if s == [] then []
    else
      assert s == [s[0]] + s[1..];
      Insert(s[0], Sort(s[1..], le), le)
  }

  lemma {:induction false} InsertSorted<T(!new)>(x: T, s: seq<T>, le: (T, T) -> bool)
    requires TotalPreorder(le) && Sorted(s, le)
    ensures Sorted(Insert(x, s, le), le)
  {
    if s != [] && !le(x, s[0]) {
      InsertSorted(x, s[1..], le);
      var r := Insert(x, s[1..], le);
      assert le(s[0], x);
      forall y | y in r ensures le(s[0], y) {
        assert y in multiset(r);
        if y != x {
          assert y in multiset(s[1..]);
          var k :| 0 <= k < |s[1..]| && s[1..][k] == y;
          assert s[k + 1] == y;
        }
      }
      forall i, j | 0 <= i < j < |[s[0]] + r| ensures le(([s[0]] + r)[i], ([s[0]] + r)[j]) {
        if i == 0 {
          assert ([s[0]] + r)[j] == r[j - 1];
          assert r[j - 1] in r;
        }
      }
    }
  }

  /** The result of `Sort` is ordered by `le`. */
  lemma {:induction false} SortSorted<T(!new)>(s: seq<T>, le: (T, T) -> bool)
    requires TotalPreorder(le)
    ensures Sorted(Sort(s, le), le)
  {
    if s != [] {
      SortSorted(s[1..], le);
      InsertSorted(s[0], Sort(s[1..], le), le);
    }
  }

  /** Sorting keeps exactly the rows it was given. */
  lemma SortMembers<T>(s: seq<T>, le: (T, T) -> bool, x: T)
    ensures x in Sort(s, le) <==> x in s
  {
    assert x in Sort(s, le) <==> x in multiset(Sort(s, le));
  }

  /** A filter every row passes leaves the rows as they were. */
  lemma {:induction false} FilterKeepsAll<T(!new)>(s: seq<T>, p: T -> bool)
    requires forall i | 0 <= i < |s| :: p(s[i])
    ensures Filter(s, p) == s
  {
    if s != [] {
      FilterKeepsAll(s[1..], p);
    }
  }

  /** A filter only the row at `k` fails removes exactly that row. */
  lemma {:induction false} FilterDropsOne<T(!new)>(s: seq<T>, p: T -> bool, k: int)
    requires 0 <= k < |s| && !p(s[k])
    requires forall i | 0 <= i < |s| && i != k :: p(s[i])
    ensures Filter(s, p) == s[..k] + s[k + 1..]
  {
    var t := s[1..];
    if k == 0 {
      assert Filter(s, p) == Filter(t, p);
      forall i | 0 <= i < |t| ensures p(t[i]) {
        assert t[i] == s[i + 1];
      }
      FilterKeepsAll(t, p);
    } else {
      assert Filter(s, p) == [s[0]] + Filter(t, p);
      forall i | 0 <= i < |t| && i != k - 1 ensures p(t[i]) {
        assert t[i] == s[i + 1];
      }
      FilterDropsOne(t, p, k - 1);
      Splice(s, k);
    }
  }

  lemma Splice<T>(s: seq<T>, k: int)
    requires 1 <= k < |s|
    ensures [s[0]] + (s[1..][..k - 1] + s[1..][k..]) == s[..k] + s[k + 1..]
  {
    assert s[1..][..k - 1] == s[1..k];
    assert s[1..][k..] == s[k + 1..];
    assert [s[0]] + s[1..k] == s[..k];
  }
}
