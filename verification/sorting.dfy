/** Sorting as the reports use it (`Array.prototype.sort` with a comparator,
    the document store's `$sort`): the result is ordered by a total preorder
    and is a permutation of the input. `Array.prototype.sort` is stable: the
    elements of one class of equal keys keep their input order, which
    `SortByStable` states. `$sort` promises no order among equal keys, so for
    the store only the first two facts are used. */
module Sorting {

  ghost predicate TotalPreorder<T(!new)>(le: (T, T) -> bool) {
    && (forall a, b :: le(a, b) || le(b, a))
    && (forall a, b, c :: le(a, b) && le(b, c) ==> le(a, c))
  }

  ghost predicate SortedBy<T>(s: seq<T>, le: (T, T) -> bool) {
    forall i, j :: 0 <= i < j < |s| ==> le(s[i], s[j])
  }

  function Insert<T>(x: T, s: seq<T>, le: (T, T) -> bool): (r: seq<T>)
    ensures multiset(r) == multiset(s) + multiset{x}
    ensures |r| == |s| + 1
  {
    if s == [] then [x]
    else if le(x, s[0]) then [x] + s
    else
      assert s == [s[0]] + s[1..];
      [s[0]] + Insert(x, s[1..], le)
  }

  function SortBy<T>(s: seq<T>, le: (T, T) -> bool): (r: seq<T>)
    ensures multiset(r) == multiset(s)
    ensures |r| == |s|
  {
    if s == [] then []
    else
      assert s == [s[0]] + s[1..];
      Insert(s[0], SortBy(s[1..], le), le)
  }

  lemma {:induction false} InsertSorted<T(!new)>(x: T, s: seq<T>, le: (T, T) -> bool)
    requires TotalPreorder(le) && SortedBy(s, le)
    ensures SortedBy(Insert(x, s, le), le)
    decreases |s|
  {
    if s != [] && !le(x, s[0]) {
      var rest := Insert(x, s[1..], le);
      InsertSorted(x, s[1..], le);
      forall y | y in rest ensures le(s[0], y) {
        assert y in multiset(rest);
        if y != x {
          assert y in multiset(s[1..]);
          var k :| 0 <= k < |s[1..]| && s[1..][k] == y;
          assert s[k + 1] == y;
        }
      }
      var r := [s[0]] + rest;
      forall i, j | 0 <= i < j < |r| ensures le(r[i], r[j]) {
        if i == 0 {
          assert r[j] in rest;
        } else {
          assert r[i] == rest[i - 1] && r[j] == rest[j - 1];
        }
      }
    }
  }

  lemma {:induction false} SortBySorted<T(!new)>(s: seq<T>, le: (T, T) -> bool)
    requires TotalPreorder(le)
    ensures SortedBy(SortBy(s, le), le)
    decreases |s|
  {
    if s != [] {
      SortBySorted(s[1..], le);
      InsertSorted(s[0], SortBy(s[1..], le), le);
    }
  }

  lemma SortByMembers<T>(s: seq<T>, le: (T, T) -> bool, x: T)
    ensures x in SortBy(s, le) <==> x in s
  {
    assert x in multiset(SortBy(s, le)) <==> x in multiset(s);
  }

  /** `a` and `b` have equal keys under `le`. */
  ghost predicate Equiv<T>(le: (T, T) -> bool, a: T, b: T) {
    le(a, b) && le(b, a)
  }

  /** The elements of `s` whose key equals that of `z`, in the order of `s`. */
  ghost function EquivClass<T>(s: seq<T>, le: (T, T) -> bool, z: T): seq<T> {
    if s == [] then []
    else (if Equiv(le, s[0], z) then [s[0]] else []) + EquivClass(s[1..], le, z)
  }

  /** `Insert` puts `x` in front of every element of `s` with its key. */
  lemma {:induction false} InsertStable<T(!new)>(x: T, s: seq<T>, le: (T, T) -> bool, z: T)
    requires TotalPreorder(le)
    ensures EquivClass(Insert(x, s, le), le, z)
            == if Equiv(le, x, z) then [x] + EquivClass(s, le, z) else EquivClass(s, le, z)
    decreases |s|
  {
    if s == [] {
    } else if le(x, s[0]) {
      assert Insert(x, s, le) == [x] + s;
      assert ([x] + s)[1..] == s;
    } else {
      var r := Insert(x, s, le);
      assert r == [s[0]] + Insert(x, s[1..], le);
      assert r[0] == s[0] && r[1..] == Insert(x, s[1..], le);
      InsertStable(x, s[1..], le, z);
      assert !(Equiv(le, x, z) && Equiv(le, s[0], z));
    }
  }

  /** Stability: sorting keeps the input order inside every class of equal keys. */
  lemma {:induction false} SortByStable<T(!new)>(s: seq<T>, le: (T, T) -> bool, z: T)
    requires TotalPreorder(le)
    ensures EquivClass(SortBy(s, le), le, z) == EquivClass(s, le, z)
    decreases |s|
  {
    if s != [] {
      SortByStable(s[1..], le, z);
      InsertStable(s[0], SortBy(s[1..], le), le, z);
    }
  }

  /** A prefix keeps a prefix of every class. */
  lemma {:induction false} EquivClassPrefix<T>(s: seq<T>, k: nat, le: (T, T) -> bool, z: T)
    requires k <= |s|
    ensures EquivClass(s[..k], le, z) <= EquivClass(s, le, z)
    decreases k
  {
    if k > 0 {
      assert s[..k][0] == s[0] && s[..k][1..] == s[1..][..k - 1];
      EquivClassPrefix(s[1..], k - 1, le, z);
    }
  }
}
