/**
 * The two query shapes the table store is asked for: an equality filter
 * (`.eq(column, value)`) and an ordering on one integer-valued column
 * (`.order(column)` and `.order(column, desc=True)`).
 */
module Ordering {

  /** The rows of `s` that satisfy `p`, in table order. */
  function Filter<T>(s: seq<T>, p: T -> bool): (r: seq<T>)
    ensures |r| <= |s|
    ensures forall i :: 0 <= i < |r| ==> p(r[i])
  {
    if s == [] then []
    else (if p(s[0]) then [s[0]] else []) + Filter(s[1..], p)
  }

  /** A row is selected exactly when it is in the table and passes the filter. */
  lemma {:induction false} FilterMembers<T>(s: seq<T>, p: T -> bool)
    ensures forall x :: x in Filter(s, p) <==> x in s && p(x)
  {
    if s != [] {
      FilterMembers(s[1..], p);
      assert s == [s[0]] + s[1..];
    }
  }

  /** The complement of a row filter. */
  function Not<T>(p: T -> bool): T -> bool {
    x => !p(x)
  }

  /** Filtering by `p` and by its complement splits the rows without losing or adding any. */
  lemma {:induction false} FilterPartition<T>(s: seq<T>, p: T -> bool)
    ensures multiset(Filter(s, p)) + multiset(Filter(s, Not(p))) == multiset(s)
  {
    if s != [] {
      var t := s[1..];
      FilterPartition(t, p);
      assert s == [s[0]] + t;
      assert Not(p)(s[0]) == !p(s[0]);
      if p(s[0]) {
        assert Filter(s, p) == [s[0]] + Filter(t, p);
        assert Filter(s, Not(p)) == Filter(t, Not(p));
      } else {
        assert Filter(s, p) == Filter(t, p);
        assert Filter(s, Not(p)) == [s[0]] + Filter(t, Not(p));
      }
    }
  }

  /** A filter that every row passes keeps the table as it is. */
  lemma {:induction false} FilterKeepsAll<T>(s: seq<T>, p: T -> bool)
    requires forall i :: 0 <= i < |s| ==> p(s[i])
    ensures Filter(s, p) == s
  {
    if s != [] {
      FilterKeepsAll(s[1..], p);
    }
  }

  /** When no row passes `p`, every row passes its complement. */
  lemma {:induction false} FilterNoneKeepsRest<T>(s: seq<T>, p: T -> bool)
    requires Filter(s, p) == []
    ensures Filter(s, Not(p)) == s
  {
    if s != [] {
      assert !p(s[0]);
      FilterNoneKeepsRest(s[1..], p);
      assert s == [s[0]] + s[1..];
    }
  }

  /** Appending a row extends the filter by that row exactly when the row passes. */
  lemma {:induction false} FilterAppend<T>(s: seq<T>, x: T, p: T -> bool)
    ensures Filter(s + [x], p) == Filter(s, p) + (if p(x) then [x] else [])
  {
    if s == [] {
      assert [x][1..] == [];
      assert s + [x] == [x];
    } else {
      assert (s + [x])[0] == s[0];
      assert (s + [x])[1..] == s[1..] + [x];
      FilterAppend(s[1..], x, p);
      var head := if p(s[0]) then [s[0]] else [];
      assert Filter(s + [x], p) == head + Filter(s[1..] + [x], p);
      assert Filter(s, p) == head + Filter(s[1..], p);
    }
  }

  /** `a` may come before `b` in an ascending (or, with `desc`, descending) order on `key`. */
  predicate Precedes<T>(a: T, b: T, key: T -> int, desc: bool) {
    if desc then key(a) >= key(b) else key(a) <= key(b)
  }

  predicate SortedBy<T>(s: seq<T>, key: T -> int, desc: bool) {
    forall i, j :: 0 <= i < j < |s| ==> Precedes(s[i], s[j], key, desc)
  }

  /** Places `x` in front of the first row it may precede, so that it stays before its equals. */
  function InsertBy<T>(x: T, s: seq<T>, key: T -> int, desc: bool): (r: seq<T>)
    ensures multiset(r) == multiset(s) + multiset{x}
    ensures |r| == |s| + 1
  {
    if s == [] || Precedes(x, s[0], key, desc) then [x] + s
    else
      assert s == [s[0]] + s[1..];
      [s[0]] + InsertBy(x, s[1..], key, desc)
  }

  /** Inserting into a sorted list keeps it sorted; the new head is `x` or the old head. */
  lemma {:induction false} InsertBySorted<T>(x: T, s: seq<T>, key: T -> int, desc: bool)
    requires SortedBy(s, key, desc)
    ensures InsertBy(x, s, key, desc)[0] == x || (s != [] && InsertBy(x, s, key, desc)[0] == s[0])
    ensures SortedBy(InsertBy(x, s, key, desc), key, desc)
  {
    if s != [] && !Precedes(x, s[0], key, desc) {
      var t := InsertBy(x, s[1..], key, desc);
      InsertBySorted(x, s[1..], key, desc);
      var r := [s[0]] + t;
      assert InsertBy(x, s, key, desc) == r;
      assert Precedes(s[0], t[0], key, desc);
      forall i, j | 0 <= i < j < |r| ensures Precedes(r[i], r[j], key, desc) {
        if i == 0 {
          if j > 1 {
            assert Precedes(t[0], t[j - 1], key, desc);
          }
        } else {
          assert r[i] == t[i - 1] && r[j] == t[j - 1];
        }
      }
    }
  }

  /**
   * The rows of `s` ordered on `key`; rows with equal keys keep their table
   * order.
   */
  function SortBy<T>(s: seq<T>, key: T -> int, desc: bool): (r: seq<T>)
    ensures SortedBy(r, key, desc)
    ensures multiset(r) == multiset(s)
    ensures |r| == |s|
  {
    if s == [] then []
    else
      var r := InsertBy(s[0], SortBy(s[1..], key, desc), key, desc);
      InsertBySorted(s[0], SortBy(s[1..], key, desc), key, desc);
      assert s == [s[0]] + s[1..];
      assert |r| == |multiset(r)|;
      r
  }
}
