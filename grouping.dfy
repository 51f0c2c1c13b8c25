/**
 * The key arithmetic behind pandas' `groupby(..., sort=True)`: the groups are
 * the distinct keys in ascending order, `ngroup()` numbers a key by its
 * position among them, and `size()` counts the rows of each key.
 */
module Grouping {
  import opened Values

  predicate StrictlySorted(s: seq<Key>)
  {
    forall i, j :: 0 <= i < j < |s| ==> KeyLess(s[i], s[j])
  }

  predicate Distinct(s: seq<Key>)
  {
    forall i, j :: 0 <= i < j < |s| ==> s[i] != s[j]
  }

  /** Puts `k` into its place in the ascending, repetition-free `s`, unless it is there already. */
  function Insert(s: seq<Key>, k: Key): seq<Key>
  {
    if |s| == 0 then [k]
    else if k == s[0] then s
    else if KeyLess(k, s[0]) then [k] + s
    else [s[0]] + Insert(s[1..], k)
  }

  /** The distinct keys of `ks` in ascending order: the groups a sorting groupby enumerates. */
  function SortedKeys(ks: seq<Key>): seq<Key>
  {
    if |ks| == 0 then [] else Insert(SortedKeys(ks[..|ks| - 1]), ks[|ks| - 1])
  }

  /** The position of `k` in `s`, or `|s|` when it does not occur. */
  function IndexOf(s: seq<Key>, k: Key): (r: nat)
    ensures r <= |s|
    ensures r < |s| <==> k in s
    ensures r < |s| ==> s[r] == k
    ensures forall j :: 0 <= j < r ==> s[j] != k
  {
    if |s| == 0 then 0
    else if s[0] == k then 0
    else 1 + IndexOf(s[1..], k)
  }

  /** How many of `ks` fall into each group of `keys`, summed over the groups. */
  function SumCounts(keys: seq<Key>, ks: seq<Key>): nat
  {
    if |keys| == 0 then 0 else multiset(ks)[keys[0]] + SumCounts(keys[1..], ks)
  }

  // ---------------------------------------------------------------------------

  lemma {:induction false} InsertMembers(s: seq<Key>, k: Key)
    ensures forall x :: x in Insert(s, k) <==> x in s || x == k
  {
    if |s| > 0 && k != s[0] && !KeyLess(k, s[0]) {
      InsertMembers(s[1..], k);
      assert s == [s[0]] + s[1..];
    }
  }

  lemma {:induction false} InsertSorted(s: seq<Key>, k: Key)
    requires StrictlySorted(s)
    ensures StrictlySorted(Insert(s, k))
  {
    if |s| == 0 {
    } else if k == s[0] {
    } else if KeyLess(k, s[0]) {
      var r := [k] + s;
      forall i, j | 0 <= i < j < |r|
        ensures KeyLess(r[i], r[j])
      {
        if i == 0 && j > 1 {
          KeyLessTransitive(k, s[0], s[j - 1]);
        }
      }
    } else {
      KeyLessTotal(k, s[0]);
      var t := Insert(s[1..], k);
      InsertSorted(s[1..], k);
      InsertMembers(s[1..], k);
      var r := [s[0]] + t;
      forall i, j | 0 <= i < j < |r|
        ensures KeyLess(r[i], r[j])
      {
        if i == 0 {
          assert r[j] in t;
          assert r[j] in s[1..] || r[j] == k;
        }
      }
    }
  }

  lemma {:induction false} SortedKeysSpec(ks: seq<Key>)
    ensures StrictlySorted(SortedKeys(ks))
    ensures forall x :: x in SortedKeys(ks) <==> x in ks
  {
    if |ks| > 0 {
      var init := ks[..|ks| - 1];
      SortedKeysSpec(init);
      InsertSorted(SortedKeys(init), ks[|ks| - 1]);
      InsertMembers(SortedKeys(init), ks[|ks| - 1]);
      assert ks == init + [ks[|ks| - 1]];
    }
  }

  lemma SortedDistinct(s: seq<Key>)
    requires StrictlySorted(s)
    ensures Distinct(s)
  {
    forall i, j | 0 <= i < j < |s|
      ensures s[i] != s[j]
    {
      if s[i] == s[j] {
        KeyLessIrreflexive(s[i]);
      }
    }
  }

  /** In a strictly sorted sequence the position of each element is its index. */
  lemma IndexOfSorted(s: seq<Key>, i: nat)
    requires StrictlySorted(s) && i < |s|
    ensures IndexOf(s, s[i]) == i
  {
    var r := IndexOf(s, s[i]);
    if r < i {
      KeyLessIrreflexive(s[i]);
    }
  }

  /** Positions in a strictly sorted sequence follow the order of the keys. */
  lemma IndexOrder(s: seq<Key>, a: Key, b: Key)
    requires StrictlySorted(s) && a in s && b in s
    ensures KeyLess(a, b) <==> IndexOf(s, a) < IndexOf(s, b)
  {
    var i, j := IndexOf(s, a), IndexOf(s, b);
    if KeyLess(a, b) && j <= i {
      KeyLessIrreflexive(a);
      if j < i {
        KeyLessTransitive(a, b, a);
      }
    }
  }

  /** A sequence without repetition has as many members as elements. */
  lemma {:induction false} DistinctCardinality<T>(s: seq<T>)
    requires forall i, j :: 0 <= i < j < |s| ==> s[i] != s[j]
    ensures |set x | x in s| == |s|
  {
    if |s| > 0 {
      var t := s[1..];
      DistinctCardinality(t);
      assert (set x | x in s) == (set x | x in t) + {s[0]};
      assert s[0] !in t;
    }
  }

  lemma {:induction false} SumCountsAppend(keys: seq<Key>, ks: seq<Key>, x: Key)
    requires Distinct(keys)
    ensures SumCounts(keys, ks + [x]) == SumCounts(keys, ks) + (if x in keys then 1 else 0)
  {
    if |keys| > 0 {
      SumCountsAppend(keys[1..], ks, x);
      assert multiset(ks + [x]) == multiset(ks) + multiset{x};
      assert keys == [keys[0]] + keys[1..];
      assert x == keys[0] ==> x !in keys[1..];
    }
  }

  /** Every key falls into exactly one group: the group sizes add up to the number of keys. */
  lemma {:induction false} SumCountsTotal(keys: seq<Key>, ks: seq<Key>)
    requires Distinct(keys)
    requires forall x :: x in ks ==> x in keys
    ensures SumCounts(keys, ks) == |ks|
  {
    if |ks| == 0 {
      SumCountsEmpty(keys);
    } else {
      var init := ks[..|ks| - 1];
      assert ks == init + [ks[|ks| - 1]];
      SumCountsTotal(keys, init);
      SumCountsAppend(keys, init, ks[|ks| - 1]);
    }
  }

  lemma {:induction false} SumCountsEmpty(keys: seq<Key>)
    ensures SumCounts(keys, []) == 0
  {
    if |keys| > 0 {
      SumCountsEmpty(keys[1..]);
    }
  }

  /** A strictly sorted sequence is determined by its members. */
  lemma {:induction false} SortedUnique(a: seq<Key>, b: seq<Key>)
    requires StrictlySorted(a) && StrictlySorted(b)
    requires forall x :: x in a <==> x in b
    ensures a == b
  {
    if |a| > 0 || |b| > 0 {
      if |a| > 0 {
        assert a[|a| - 1] in b;
      }
      if |b| > 0 {
        assert b[|b| - 1] in a;
      }
      var x, y := a[|a| - 1], b[|b| - 1];
      if x != y {
        var i :| 0 <= i < |b| && b[i] == x;
        var j :| 0 <= j < |a| && a[j] == y;
        assert KeyLess(x, y) && KeyLess(y, x);
        KeyLessTransitive(x, y, x);
        KeyLessIrreflexive(x);
      }
      var a', b' := a[..|a| - 1], b[..|b| - 1];
      forall z
        ensures z in a' <==> z in b'
      {
        if z in a' {
          var k :| 0 <= k < |a'| && a'[k] == z;
          assert KeyLess(z, x);
          KeyLessIrreflexive(z);
          assert z in b;
        }
        if z in b' {
          var k :| 0 <= k < |b'| && b'[k] == z;
          assert KeyLess(z, y);
          KeyLessIrreflexive(z);
          assert z in a;
        }
      }
      SortedUnique(a', b');
      assert a == a' + [x] && b == b' + [y];
    }
  }
}
