/** Python's list built-ins as the core uses them: a comprehension with an `if`
    clause (`Select`) and `sorted(xs, key=..., reverse=...)` (`SortBy`). */
module Lists {

  /** `r` can be obtained from `s` by deleting elements: the order of `s` is kept. */
  ghost predicate IsSubseq<T>(r: seq<T>, s: seq<T>)
    decreases |s|
  {
    if |r| == 0 then true
    else if |s| == 0 then false
    else (r[0] == s[0] && IsSubseq(r[1..], s[1..])) || IsSubseq(r, s[1..])
  }

  lemma {:induction false} SubseqSelf<T>(s: seq<T>)
    ensures IsSubseq(s, s)
    decreases |s|
  {
    if |s| > 0 {
      SubseqSelf(s[1..]);
    }
  }

  lemma {:induction false} SubseqMultiset<T>(r: seq<T>, s: seq<T>)
    requires IsSubseq(r, s)
    ensures multiset(r) <= multiset(s)
    decreases |s|
  {
    if |r| > 0 {
      assert s == [s[0]] + s[1..];
      if r[0] == s[0] && IsSubseq(r[1..], s[1..]) {
        SubseqMultiset(r[1..], s[1..]);
        assert r == [r[0]] + r[1..];
      } else {
        SubseqMultiset(r, s[1..]);
      }
    }
  }

  /** `[x for x in s if keep(x)]`: the elements of `s` that satisfy `keep`,
      each as often as in `s`, in their order in `s`. */
  function Select<T(==,!new)>(s: seq<T>, keep: T -> bool): (r: seq<T>)
    ensures IsSubseq(r, s)
    ensures forall x :: multiset(r)[x] == if keep(x) then multiset(s)[x] else 0
    decreases |s|
  {
    if |s| == 0 then []
    else
      var rest := Select(s[1..], keep);
      assert s == [s[0]] + s[1..];
      if keep(s[0]) then
        assert ([s[0]] + rest)[1..] == rest;
        [s[0]] + rest
      else
        rest
  }

  /** A filter every element passes returns the list unchanged. */
  lemma {:induction false} SelectAll<T(!new)>(s: seq<T>, keep: T -> bool)
    requires forall i :: 0 <= i < |s| ==> keep(s[i])
    ensures Select(s, keep) == s
    decreases |s|
  {
    if |s| > 0 {
      assert keep(s[0]);
      assert Select(s, keep) == [s[0]] + Select(s[1..], keep);
      SelectAll(s[1..], keep);
      assert s == [s[0]] + s[1..];
    }
  }

  /** The two properties `Select` promises determine its result: any subsequence
      of `s` holding exactly the kept elements, as often as `s` does, is `Select(s, keep)`. */
  lemma {:induction false} SelectUnique<T(!new)>(s: seq<T>, keep: T -> bool, t: seq<T>)
    requires IsSubseq(t, s)
    requires forall x :: multiset(t)[x] == if keep(x) then multiset(s)[x] else 0
    ensures t == Select(s, keep)
    decreases |s|
  {
    if |s| == 0 {
      assert |t| == 0;
    } else {
      var x, s' := s[0], s[1..];
      assert s == [x] + s';
      if |t| == 0 {
        assert multiset(t)[x] == 0;
        SelectUnique(s', keep, t);
      } else if t[0] == x && IsSubseq(t[1..], s') {
        assert t == [x] + t[1..];
        assert keep(x) by { assert multiset(t)[x] > 0; }
        forall y ensures multiset(t[1..])[y] == if keep(y) then multiset(s')[y] else 0 {
          assert multiset(t)[y] == multiset(t[1..])[y] + (if y == x then 1 else 0);
        }
        SelectUnique(s', keep, t[1..]);
      } else {
        assert IsSubseq(t, s');
        SubseqMultiset(t, s');
        if keep(x) {
          assert false;
        }
        forall y ensures multiset(t)[y] == if keep(y) then multiset(s')[y] else 0 {
          if keep(y) { assert y != x; }
        }
        SelectUnique(s', keep, t);
      }
    }
  }

  /** `a` may stand before `b` in `sorted(..., key=key, reverse=reverse)`. */
  predicate InOrder<T>(a: T, b: T, key: T -> real, reverse: bool)
  {
    if reverse then key(a) >= key(b) else key(a) <= key(b)
  }

  ghost predicate SortedBy<T>(s: seq<T>, key: T -> real, reverse: bool)
  {
    forall i, j :: 0 <= i < j < |s| ==> InOrder(s[i], s[j], key, reverse)
  }

  /** The elements of `s` whose key is `v`, in their order in `s`. */
  function WithKey<T(==,!new)>(s: seq<T>, key: T -> real, v: real): seq<T>
  {
    Select(s, x => key(x) == v)
  }

  /** `r` keeps the relative order that `s` gives to elements with equal keys. */
  ghost predicate Stable<T(!new)>(r: seq<T>, s: seq<T>, key: T -> real)
  {
    forall v :: WithKey(r, key, v) == WithKey(s, key, v)
  }

  lemma WithKeyCons<T(!new)>(x: T, t: seq<T>, key: T -> real, v: real)
    ensures WithKey([x] + t, key, v) == (if key(x) == v then [x] else []) + WithKey(t, key, v)
  {
    assert ([x] + t)[1..] == t;
  }

  /** Places `x` before the first element it may precede; on equal keys `x` goes first,
      which is what keeps the sort stable. */
  function Insert<T(==,!new)>(x: T, t: seq<T>, key: T -> real, reverse: bool): (r: seq<T>)
    ensures multiset(r) == multiset{x} + multiset(t)
    decreases |t|
  {
    if |t| == 0 then [x]
    else if InOrder(x, t[0], key, reverse) then [x] + t
    else
      assert t == [t[0]] + t[1..];
      [t[0]] + Insert(x, t[1..], key, reverse)
  }

  /** In a sorted sequence the head may precede every later element. */
  lemma HeadFirst<T>(t: seq<T>, key: T -> real, reverse: bool, y: T)
    requires SortedBy(t, key, reverse) && |t| > 0 && y in t[1..]
    ensures InOrder(t[0], y, key, reverse)
  {
    var k :| 0 <= k < |t| - 1 && t[1..][k] == y;
    assert t[k + 1] == y;
  }

  lemma {:induction false} InsertSorted<T(!new)>(x: T, t: seq<T>, key: T -> real, reverse: bool)
    requires SortedBy(t, key, reverse)
    ensures SortedBy(Insert(x, t, key, reverse), key, reverse)
    decreases |t|
  {
    if |t| > 0 && !InOrder(x, t[0], key, reverse) {
      var t' := t[1..];
      var rest := Insert(x, t', key, reverse);
      InsertSorted(x, t', key, reverse);
      var r := [t[0]] + rest;
      assert r[1..] == rest;
      forall j | 0 < j < |r| ensures InOrder(r[0], r[j], key, reverse) {
        var y := rest[j - 1];
        assert r[j] == y;
        assert y in multiset(rest);
        if y != x {
          assert y in t' by {
            assert y in multiset(t');
          }
          HeadFirst(t, key, reverse, y);
        }
      }
    }
  }

  lemma {:induction false} InsertStable<T(!new)>(x: T, t: seq<T>, key: T -> real, reverse: bool, v: real)
    ensures WithKey(Insert(x, t, key, reverse), key, v) == WithKey([x] + t, key, v)
    decreases |t|
  {
    if |t| > 0 && !InOrder(x, t[0], key, reverse) {
      var t' := t[1..];
      assert t == [t[0]] + t';
      InsertStable(x, t', key, reverse, v);
      WithKeyCons(t[0], Insert(x, t', key, reverse), key, v);
      WithKeyCons(x, t', key, v);
      WithKeyCons(x, t, key, v);
      WithKeyCons(t[0], t', key, v);
    }
  }

  /** `sorted(s, key=key, reverse=reverse)`: a stable sort, ascending by key unless `reverse`. */
  function SortBy<T(==,!new)>(s: seq<T>, key: T -> real, reverse: bool): (r: seq<T>)
    ensures multiset(r) == multiset(s)
    ensures SortedBy(r, key, reverse)
    ensures Stable(r, s, key)
    decreases |s|
  {
    if |s| == 0 then []
    else
      var rest := SortBy(s[1..], key, reverse);
      InsertSorted(s[0], rest, key, reverse);
      assert s == [s[0]] + s[1..];
      assert forall v :: WithKey(Insert(s[0], rest, key, reverse), key, v) == WithKey(s, key, v) by {
        forall v ensures WithKey(Insert(s[0], rest, key, reverse), key, v) == WithKey(s, key, v) {
          InsertStable(s[0], rest, key, reverse, v);
          WithKeyCons(s[0], rest, key, v);
          WithKeyCons(s[0], s[1..], key, v);
        }
      }
      Insert(s[0], rest, key, reverse)
  }

  /** Stable arrangements hold the same elements. */
  lemma StableMember<T(!new)>(r: seq<T>, r': seq<T>, key: T -> real, x: T)
    requires Stable(r, r', key)
    requires x in r
    ensures x in r'
  {
    assert x in multiset(r);
    assert x in multiset(WithKey(r, key, key(x)));
    assert x in multiset(WithKey(r', key, key(x)));
  }

  lemma HeadKeysEqual<T(!new)>(r: seq<T>, r': seq<T>, key: T -> real, reverse: bool)
    requires SortedBy(r, key, reverse) && SortedBy(r', key, reverse)
    requires Stable(r, r', key)
    requires |r| > 0 && |r'| > 0
    ensures key(r[0]) == key(r'[0])
  {
    StableMember(r, r', key, r[0]);
    forall v ensures WithKey(r', key, v) == WithKey(r, key, v) { }
    StableMember(r', r, key, r'[0]);
    var i :| 0 <= i < |r'| && r'[i] == r[0];
    var j :| 0 <= j < |r| && r[j] == r'[0];
    assert i > 0 ==> InOrder(r'[0], r'[i], key, reverse);
    assert j > 0 ==> InOrder(r[0], r[j], key, reverse);
  }

  lemma SortedTail<T>(r: seq<T>, key: T -> real, reverse: bool)
    requires SortedBy(r, key, reverse) && |r| > 0
    ensures SortedBy(r[1..], key, reverse)
  {
    forall i, j | 0 <= i < j < |r| - 1 ensures InOrder(r[1..][i], r[1..][j], key, reverse) {
      assert r[1..][i] == r[i + 1] && r[1..][j] == r[j + 1];
    }
  }

  /** Stability survives dropping a common first element. */
  lemma StableTail<T(!new)>(a: T, t: seq<T>, t': seq<T>, key: T -> real)
    requires Stable([a] + t, [a] + t', key)
    ensures Stable(t, t', key)
  {
    forall u ensures WithKey(t, key, u) == WithKey(t', key, u) {
      WithKeyCons(a, t, key, u);
      WithKeyCons(a, t', key, u);
    }
  }

  /** Sorted and stable pin the arrangement down: two sorted sequences that order
      every group of equal keys alike are equal. */
  lemma {:induction false} SortedStableEqual<T(!new)>(r: seq<T>, r': seq<T>, key: T -> real, reverse: bool)
    requires SortedBy(r, key, reverse) && SortedBy(r', key, reverse)
    requires Stable(r, r', key)
    ensures r == r'
    decreases |r|
  {
    if |r| == 0 {
      if |r'| > 0 {
        forall v ensures WithKey(r', key, v) == WithKey(r, key, v) { }
        StableMember(r', r, key, r'[0]);
      }
    } else if |r'| == 0 {
      StableMember(r, r', key, r[0]);
    } else {
      var a, b := r[0], r'[0];
      assert r == [a] + r[1..];
      assert r' == [b] + r'[1..];
      assert a == b by {
        HeadKeysEqual(r, r', key, reverse);
        assert WithKey(r, key, key(a)) == WithKey(r', key, key(a));
        WithKeyCons(a, r[1..], key, key(a));
        WithKeyCons(b, r'[1..], key, key(a));
      }
      StableTail(a, r[1..], r'[1..], key);
      SortedTail(r, key, reverse);
      SortedTail(r', key, reverse);
      SortedStableEqual(r[1..], r'[1..], key, reverse);
    }
  }

  /** Any stable sort of `s` gives `SortBy(s, ...)`, whatever algorithm it uses. */
  lemma StableSortUnique<T(!new)>(s: seq<T>, r: seq<T>, key: T -> real, reverse: bool)
    requires SortedBy(r, key, reverse)
    requires Stable(r, s, key)
    ensures r == SortBy(s, key, reverse)
  {
    SortedStableEqual(r, SortBy(s, key, reverse), key, reverse);
  }
}
