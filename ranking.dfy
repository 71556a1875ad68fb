/**
 * The array operations every leaderboard of the system is built from:
 * `arr.slice().sort((a, b) => key(b) - key(a))` (a stable sort by a numeric
 * key, largest first, on a copy), `slice(0, n)` and `filter`.
 *
 * `Array.prototype.sort` is stable, so with this comparator its result is
 * the unique stable descending permutation of its input (SortDescUnique);
 * SortDesc computes that permutation by insertion.
 */
module Ranking {

  /** Keys never increase along `s`. */
  predicate SortedDesc<T>(s: seq<T>, key: T -> real) {
    forall i, j | 0 <= i < j < |s| :: key(s[i]) >= key(s[j])
  }

  /** The elements of `s` whose key is `v`, in their order in `s`. */
  function KeyRun<T>(s: seq<T>, key: T -> real, v: real): seq<T> {
    if s == [] then []
    else (if key(s[0]) == v then [s[0]] else []) + KeyRun(s[1..], key, v)
  }

  /** Places `x` after every element whose key is at least `key(x)`. */
  function InsertDesc<T>(s: seq<T>, x: T, key: T -> real): (r: seq<T>)
    ensures multiset(r) == multiset(s) + multiset{x}
    ensures |r| == |s| + 1
  {
    if s == [] || key(s[0]) < key(x) then [x] + s
    else
      assert s == [s[0]] + s[1..];
      [s[0]] + InsertDesc(s[1..], x, key)
  }

  /** The result of `s.slice().sort((a, b) => key(b) - key(a))`. */
  function SortDesc<T>(s: seq<T>, key: T -> real): (r: seq<T>)
    ensures multiset(r) == multiset(s)
    ensures |r| == |s|
  {
    if s == [] then []
    else
      assert s == s[..|s| - 1] + [s[|s| - 1]];
      InsertDesc(SortDesc(s[..|s| - 1], key), s[|s| - 1], key)
  }

  /** The end index `slice(0, n)` uses on a sequence of length `len`: a negative `n` counts from the end. */
  function SliceEnd(n: int, len: nat): (e: nat)
    ensures e <= len
    ensures 0 <= n ==> e == (if n < len then n else len)
    ensures n < 0 ==> e == (if len + n < 0 then 0 else len + n)
  {
    if n < 0 then (if len + n < 0 then 0 else len + n)
    else if n < len then n else len
  }

  /** `s.slice(0, n)` for an integer `n`. */
  function Slice<T>(s: seq<T>, n: int): seq<T> {
    s[..SliceEnd(n, |s|)]
  }

  /** `s.filter(p)` */
  function Filter<T>(s: seq<T>, p: T -> bool): seq<T> {
    if s == [] then [] else (if p(s[0]) then [s[0]] else []) + Filter(s[1..], p)
  }

  /** `top(arr, key, n)`: the `slice(0, n)` of the descending sort of a copy of `arr`. */
  function Top<T>(arr: seq<T>, key: T -> real, n: int): seq<T> {
    Slice(SortDesc(arr, key), n)
  }

  // ---------------------------------------------------------------------------
  // The sort

  lemma {:induction false} InsertDescSorted<T>(s: seq<T>, x: T, key: T -> real)
    requires SortedDesc(s, key)
    ensures SortedDesc(InsertDesc(s, x, key), key)
  {
    if s == [] || key(s[0]) < key(x) {
    } else {
      var t := InsertDesc(s[1..], x, key);
      InsertDescSorted(s[1..], x, key);
      forall j | 0 <= j < |t| ensures key(s[0]) >= key(t[j]) {
        assert t[j] in multiset(t);
        assert t[j] in multiset(s[1..]) || t[j] == x;
        if t[j] != x {
          var k :| 0 <= k < |s[1..]| && s[1..][k] == t[j];
          assert s[k + 1] == t[j];
        }
      }
    }
  }

  /** The sort yields keys in non-increasing order. */
  lemma {:induction false} SortDescSorted<T>(s: seq<T>, key: T -> real)
    ensures SortedDesc(SortDesc(s, key), key)
  {
    if s != [] {
      SortDescSorted(s[..|s| - 1], key);
      InsertDescSorted(SortDesc(s[..|s| - 1], key), s[|s| - 1], key);
    }
  }

  lemma {:induction false} KeyRunAppend<T>(a: seq<T>, b: seq<T>, key: T -> real, v: real)
    ensures KeyRun(a + b, key, v) == KeyRun(a, key, v) + KeyRun(b, key, v)
  {
    if a != [] {
      assert (a + b)[1..] == a[1..] + b;
      KeyRunAppend(a[1..], b, key, v);
    } else {
      assert a + b == b;
    }
  }

  lemma {:induction false} KeyRunOfOthers<T>(s: seq<T>, key: T -> real, v: real)
    requires forall i | 0 <= i < |s| :: key(s[i]) != v
    ensures KeyRun(s, key, v) == []
  {
    if s != [] {
      KeyRunOfOthers(s[1..], key, v);
    }
  }

  lemma {:induction false} InsertDescKeyRun<T>(s: seq<T>, x: T, key: T -> real, v: real)
    requires SortedDesc(s, key)
    ensures KeyRun(InsertDesc(s, x, key), key, v)
         == KeyRun(s, key, v) + (if key(x) == v then [x] else [])
  {
    if s == [] {
      KeyRunSingleton(x, key, v);
      assert InsertDesc(s, x, key) == [x];
    } else if key(s[0]) < key(x) {
      InsertDescFrontKeyRun(s, x, key, v);
    } else {
      SortedDescTail(s, key);
      InsertDescKeyRun(s[1..], x, key, v);
      InsertDescBehindKeyRun(s, x, key, v);
    }
  }

  /** Inserting behind the head: the head's run entry comes first, then the insertion into the rest. */
  lemma {:induction false} InsertDescBehindKeyRun<T>(s: seq<T>, x: T, key: T -> real, v: real)
    requires s != [] && key(s[0]) >= key(x)
    requires KeyRun(InsertDesc(s[1..], x, key), key, v)
          == KeyRun(s[1..], key, v) + (if key(x) == v then [x] else [])
    ensures KeyRun(InsertDesc(s, x, key), key, v)
         == KeyRun(s, key, v) + (if key(x) == v then [x] else [])
  {
    var t := InsertDesc(s[1..], x, key);
    assert InsertDesc(s, x, key) == [s[0]] + t;
    KeyRunCons(s[0], t, key, v);
    KeyRunCons(s[0], s[1..], key, v);
    assert [s[0]] + s[1..] == s;
    var fs, fx := if key(s[0]) == v then [s[0]] else [], if key(x) == v then [x] else [];
    AppendAssoc(fs, KeyRun(s[1..], key, v), fx);
  }

  /** Inserting ahead of every element: the new element's key is above all of them. */
  lemma {:induction false} InsertDescFrontKeyRun<T>(s: seq<T>, x: T, key: T -> real, v: real)
    requires SortedDesc(s, key) && s != [] && key(s[0]) < key(x)
    ensures KeyRun(InsertDesc(s, x, key), key, v)
         == KeyRun(s, key, v) + (if key(x) == v then [x] else [])
  {
    KeyRunCons(x, s, key, v);
    if key(x) == v {
      forall i | 0 <= i < |s| ensures key(s[i]) != v {
        if i > 0 { assert key(s[0]) >= key(s[i]); }
      }
      KeyRunOfOthers(s, key, v);
    }
  }

  lemma {:induction false} KeyRunCons<T>(y: T, s: seq<T>, key: T -> real, v: real)
    ensures KeyRun([y] + s, key, v) == (if key(y) == v then [y] else []) + KeyRun(s, key, v)
  {
    assert ([y] + s)[1..] == s;
  }

  lemma {:induction false} SortedDescTail<T>(s: seq<T>, key: T -> real)
    requires SortedDesc(s, key) && s != []
    ensures SortedDesc(s[1..], key)
  {
    forall i, j | 0 <= i < j < |s[1..]| ensures key(s[1..][i]) >= key(s[1..][j]) {
      assert s[1..][i] == s[i + 1] && s[1..][j] == s[j + 1];
    }
  }

  lemma AppendAssoc<T>(a: seq<T>, b: seq<T>, c: seq<T>)
    ensures (a + b) + c == a + (b + c)
  {
  }

  /** The sort is stable: elements with equal keys keep their input order. */
  lemma {:induction false} SortDescStable<T>(s: seq<T>, key: T -> real, v: real)
    ensures KeyRun(SortDesc(s, key), key, v) == KeyRun(s, key, v)
  {
    if s != [] {
      SortDescStable(s[..|s| - 1], key, v);
      SortDescLastKeyRun(s, key, v);
      KeyRunLast(s, key, v);
    }
  }

  /** Sorting one more element adds it at the end of its key's run. */
  lemma {:induction false} SortDescLastKeyRun<T>(s: seq<T>, key: T -> real, v: real)
    requires s != []
    ensures var x := s[|s| - 1];
            KeyRun(SortDesc(s, key), key, v)
            == KeyRun(SortDesc(s[..|s| - 1], key), key, v) + (if key(x) == v then [x] else [])
  {
    var p, x := s[..|s| - 1], s[|s| - 1];
    SortDescSorted(p, key);
    InsertDescKeyRun(SortDesc(p, key), x, key, v);
  }

  lemma {:induction false} KeyRunLast<T>(s: seq<T>, key: T -> real, v: real)
    requires s != []
    ensures var x := s[|s| - 1];
            KeyRun(s, key, v) == KeyRun(s[..|s| - 1], key, v) + (if key(x) == v then [x] else [])
  {
    var p, x := s[..|s| - 1], s[|s| - 1];
    assert s == p + [x];
    KeyRunAppend(p, [x], key, v);
    KeyRunSingleton(x, key, v);
  }

  lemma {:induction false} KeyRunSingleton<T>(x: T, key: T -> real, v: real)
    ensures KeyRun([x], key, v) == if key(x) == v then [x] else []
  {
    assert KeyRun([x], key, v) == (if key(x) == v then [x] else []) + KeyRun([x][1..], key, v);
  }

  lemma {:induction false} KeyRunMembers<T>(s: seq<T>, key: T -> real, v: real)
    ensures forall y | y in KeyRun(s, key, v) :: y in s && key(y) == v
  {
    if s != [] {
      KeyRunMembers(s[1..], key, v);
    }
  }

  lemma {:induction false} KeyRunOfHead<T>(s: seq<T>, key: T -> real)
    requires s != []
    ensures KeyRun(s, key, key(s[0])) != []
  {
  }

  /**
   * Two descending sequences with the same elements under every key, in the
   * same order, are equal: a stable descending sort has only one possible result.
   */
  lemma {:induction false} StableSortedUnique<T>(t1: seq<T>, t2: seq<T>, key: T -> real)
    requires SortedDesc(t1, key) && SortedDesc(t2, key)
    requires forall v :: KeyRun(t1, key, v) == KeyRun(t2, key, v)
    ensures t1 == t2
  {
    if t1 != [] && t2 == [] {
      KeyRunOfHead(t1, key);
      assert false;
    } else if t1 == [] && t2 != [] {
      KeyRunOfHead(t2, key);
      assert false;
    } else if t1 != [] {
      var m1, m2 := key(t1[0]), key(t2[0]);
      KeyRunMembers(t1, key, m2);
      KeyRunMembers(t2, key, m1);
      assert t1[0] in KeyRun(t2, key, m1) by { assert KeyRun(t1, key, m1)[0] == t1[0]; }
      assert t2[0] in KeyRun(t1, key, m2) by { assert KeyRun(t2, key, m2)[0] == t2[0]; }
      assert m1 <= m2 by {
        var y := t1[0];
        assert y in t2;
        var k :| 0 <= k < |t2| && t2[k] == y;
      }
      assert m2 <= m1 by {
        var y := t2[0];
        assert y in t1;
        var k :| 0 <= k < |t1| && t1[k] == y;
      }
      assert t1[0] == t2[0] by {
        assert KeyRun(t1, key, m1)[0] == t1[0];
        assert KeyRun(t2, key, m1)[0] == t2[0];
      }
      forall v ensures KeyRun(t1[1..], key, v) == KeyRun(t2[1..], key, v) {
        var r1, r2 := KeyRun(t1, key, v), KeyRun(t2, key, v);
        assert r1 == r2;
        if m1 == v {
          assert r1 == [t1[0]] + KeyRun(t1[1..], key, v);
          assert r2 == [t2[0]] + KeyRun(t2[1..], key, v);
          assert r1[1..] == KeyRun(t1[1..], key, v);
          assert r2[1..] == KeyRun(t2[1..], key, v);
        } else {
          assert r1 == [] + KeyRun(t1[1..], key, v) == KeyRun(t1[1..], key, v);
          assert r2 == [] + KeyRun(t2[1..], key, v) == KeyRun(t2[1..], key, v);
        }
      }
      StableSortedUnique(t1[1..], t2[1..], key);
      assert t1 == [t1[0]] + t1[1..] && t2 == [t2[0]] + t2[1..];
    }
  }

  /** Any stable descending rearrangement of `s` is `SortDesc(s)`. */
  lemma {:induction false} SortDescUnique<T>(s: seq<T>, t: seq<T>, key: T -> real)
    requires SortedDesc(t, key)
    requires forall v :: KeyRun(t, key, v) == KeyRun(s, key, v)
    ensures t == SortDesc(s, key)
  {
    SortDescSorted(s, key);
    forall v ensures KeyRun(t, key, v) == KeyRun(SortDesc(s, key), key, v) {
      SortDescStable(s, key, v);
    }
    StableSortedUnique(t, SortDesc(s, key), key);
  }

  // ---------------------------------------------------------------------------
  // filter

  lemma {:induction false} FilterMembers<T>(s: seq<T>, p: T -> bool)
    ensures forall i | 0 <= i < |Filter(s, p)| :: p(Filter(s, p)[i]) && Filter(s, p)[i] in s
    ensures |Filter(s, p)| <= |s|
  {
    if s != [] {
      FilterMembers(s[1..], p);
    }
  }

  /**
   * Two filters whose predicates never hold together split between them the
   * elements that satisfy either one (`u` is their disjunction).
   */
  lemma {:induction false} FilterPartition<T>(s: seq<T>, p: T -> bool, q: T -> bool, u: T -> bool)
    requires forall i | 0 <= i < |s| :: !(p(s[i]) && q(s[i])) && u(s[i]) == (p(s[i]) || q(s[i]))
    ensures multiset(Filter(s, p)) + multiset(Filter(s, q)) == multiset(Filter(s, u))
  {
    if s != [] {
      FilterPartition(s[1..], p, q, u);
    }
  }

  // ---------------------------------------------------------------------------
  // top(arr, key, n)

  /** `top` returns at most `n` rows, and exactly `min(n, |arr|)` for `n >= 0`; a negative `n` drops rows from the end. */
  lemma {:induction false} TopLength<T>(arr: seq<T>, key: T -> real, n: int)
    ensures 0 <= n ==> |Top(arr, key, n)| == (if n < |arr| then n else |arr|)
    ensures n < 0 ==> |Top(arr, key, n)| == (if |arr| + n < 0 then 0 else |arr| + n)
  {
  }

  /**
   * `top` is a prefix of the stable descending permutation of its input, in
   * order, and no row it leaves out has a larger key than a row it keeps.
   */
  lemma {:induction false} TopIsBestPrefix<T>(arr: seq<T>, key: T -> real, n: int)
    ensures SortedDesc(Top(arr, key, n), key)
    ensures Top(arr, key, n) <= SortDesc(arr, key)
    ensures multiset(Top(arr, key, n)) <= multiset(arr)
    ensures forall x, y | x in multiset(arr) - multiset(Top(arr, key, n)) && y in Top(arr, key, n) :: key(y) >= key(x)
  {
    var sorted := SortDesc(arr, key);
    var e := SliceEnd(n, |sorted|);
    SortDescSorted(arr, key);
    PrefixDominates(sorted, e, key);
  }

  /** A prefix of a descending sequence is descending, and no element after it has a larger key than one in it. */
  lemma {:induction false} PrefixDominates<T>(s: seq<T>, e: nat, key: T -> real)
    requires SortedDesc(s, key) && e <= |s|
    ensures SortedDesc(s[..e], key)
    ensures multiset(s[..e]) <= multiset(s)
    ensures forall x, y | x in multiset(s) - multiset(s[..e]) && y in s[..e] :: key(y) >= key(x)
  {
    var top, rest := s[..e], s[e..];
    assert s == top + rest;
    assert multiset(s) == multiset(top) + multiset(rest);
    assert multiset(s) - multiset(top) == multiset(rest);
    forall x, y | x in multiset(rest) && y in top ensures key(y) >= key(x) {
      SplitDominates(s, e, key, x, y);
    }
  }

  lemma {:induction false} SplitDominates<T>(s: seq<T>, e: nat, key: T -> real, x: T, y: T)
    requires SortedDesc(s, key) && e <= |s|
    requires x in multiset(s[e..]) && y in s[..e]
    ensures key(y) >= key(x)
  {
    assert x in s[e..];
    var i :| 0 <= i < |s[e..]| && s[e..][i] == x;
    var j :| 0 <= j < |s[..e]| && s[..e][j] == y;
    assert s[j] == y && s[e + i] == x;
  }
}
