/** Attributor: the feature names zipped with their attributions and sorted, stably, by
    descending absolute impact (app.py, lines 80-83). */
module Ranking {

  /** One `(feature, impact)` pair of the attribution list. */
  datatype Attribution = Attribution(feature: string, impact: real)

  function Abs(x: real): (r: real)
    ensures r >= 0.0 && (r == x || r == -x)
  {
    if x < 0.0 then -x else x
  }

  /** The sort key, `abs(x[1])`. */
  function Key(p: Attribution): real
  {
    Abs(p.impact)
  }

  /** Python's `zip`: one pair per position, as many as the shorter list has. */
  function Zip(names: seq<string>, impacts: seq<real>): (r: seq<Attribution>)
    ensures |r| <= |names| && |r| <= |impacts|
    ensures |r| == |names| || |r| == |impacts|
    ensures forall i :: 0 <= i < |r| ==> r[i].feature == names[i] && r[i].impact == impacts[i]
  {
    if names == [] || impacts == [] then []
    else [Attribution(names[0], impacts[0])] + Zip(names[1..], impacts[1..])
  }

  /** Ordered by non-increasing absolute impact. */
  ghost predicate SortedByImpact(s: seq<Attribution>)
  {
    forall i, j :: 0 <= i < j < |s| ==> Key(s[i]) >= Key(s[j])
  }

  /** The entries of `s` whose absolute impact is `k`, in their order in `s`. */
  function WithKey(s: seq<Attribution>, k: real): seq<Attribution>
  {
    if s == [] then []
    else WithKey(s[..|s| - 1], k) + (if Key(s[|s| - 1]) == k then [s[|s| - 1]] else [])
  }

  /** A stable reordering: every group of entries with equal keys keeps its order. */
  ghost predicate StableReordering(s: seq<Attribution>, t: seq<Attribution>)
  {
    forall k :: WithKey(t, k) == WithKey(s, k)
  }

  /** Insert `e` into the sorted `t` after every entry whose key is at least `e`'s. */
  function Insert(t: seq<Attribution>, e: Attribution): (r: seq<Attribution>)
  {
    if t == [] || Key(t[|t| - 1]) >= Key(e) then t + [e]
    else Insert(t[..|t| - 1], e) + [t[|t| - 1]]
  }

  /** Stable insertion sort by descending absolute impact, element by element from the left. */
  function InsertionSort(s: seq<Attribution>): (r: seq<Attribution>)
  {
    if s == [] then [] else Insert(InsertionSort(s[..|s| - 1]), s[|s| - 1])
  }

  lemma {:induction false} WithKeyAppend(a: seq<Attribution>, b: seq<Attribution>, k: real)
    ensures WithKey(a + b, k) == WithKey(a, k) + WithKey(b, k)
  {
    if b == [] {
      assert a + b == a;
    } else {
      assert (a + b)[..|a + b| - 1] == a + b[..|b| - 1];
      WithKeyAppend(a, b[..|b| - 1], k);
    }
  }

  /** Every entry selected by `WithKey` has the key and comes from the sequence. */
  lemma {:induction false} WithKeyMembers(s: seq<Attribution>, k: real)
    ensures forall x :: x in WithKey(s, k) ==> x in s && Key(x) == k
    ensures forall x :: x in s && Key(x) == k ==> x in WithKey(s, k)
  {
    if s != [] {
      WithKeyMembers(s[..|s| - 1], k);
      assert s == s[..|s| - 1] + [s[|s| - 1]];
    }
  }

  lemma {:induction false} InsertPermutes(t: seq<Attribution>, e: Attribution)
    ensures multiset(Insert(t, e)) == multiset(t) + multiset{e}
  {
    if t == [] || Key(t[|t| - 1]) >= Key(e) {
    } else {
      InsertPermutes(t[..|t| - 1], e);
      assert t == t[..|t| - 1] + [t[|t| - 1]];
    }
  }

  /** Every entry of `Insert(t, e)` is `e` or an entry of `t`. */
  lemma InsertMembers(t: seq<Attribution>, e: Attribution)
    ensures forall x :: x in Insert(t, e) ==> x in t || x == e
  {
    InsertPermutes(t, e);
    forall x | x in Insert(t, e) ensures x in t || x == e {
      assert x in multiset(Insert(t, e));
    }
  }

  /** A prefix of a sorted sequence is sorted. */
  lemma SortedPrefix(t: seq<Attribution>, n: nat)
    requires SortedByImpact(t) && n <= |t|
    ensures SortedByImpact(t[..n])
  {
    forall i, j | 0 <= i < j < n ensures Key(t[..n][i]) >= Key(t[..n][j]) {
      assert t[..n][i] == t[i] && t[..n][j] == t[j];
    }
  }

  /** Appending an entry no larger than any other keeps a sequence sorted. */
  lemma SortedSnoc(r: seq<Attribution>, x: Attribution)
    requires SortedByImpact(r)
    requires forall i :: 0 <= i < |r| ==> Key(r[i]) >= Key(x)
    ensures SortedByImpact(r + [x])
  {
    forall i, j | 0 <= i < j < |r| + 1 ensures Key((r + [x])[i]) >= Key((r + [x])[j]) {
      if j < |r| {
        assert (r + [x])[i] == r[i] && (r + [x])[j] == r[j];
      }
    }
  }

  lemma {:induction false} InsertSorted(t: seq<Attribution>, e: Attribution)
    requires SortedByImpact(t)
    ensures SortedByImpact(Insert(t, e))
  {
    if t == [] || Key(t[|t| - 1]) >= Key(e) {
      forall i | 0 <= i < |t| ensures Key(t[i]) >= Key(e) {
        if i < |t| - 1 {
          assert Key(t[i]) >= Key(t[|t| - 1]);
        }
      }
      SortedSnoc(t, e);
    } else {
      var init, last := t[..|t| - 1], t[|t| - 1];
      SortedPrefix(t, |t| - 1);
      InsertSorted(init, e);
      InsertMembers(init, e);
      var r := Insert(init, e);
      forall i | 0 <= i < |r| ensures Key(r[i]) >= Key(last) {
        assert r[i] in r;
        if r[i] != e {
          var m :| 0 <= m < |init| && init[m] == r[i];
          assert Key(t[m]) >= Key(t[|t| - 1]);
        }
      }
      SortedSnoc(r, last);
    }
  }

  lemma {:induction false} InsertKeepsGroups(t: seq<Attribution>, e: Attribution, k: real)
    ensures WithKey(Insert(t, e), k) == WithKey(t, k) + WithKey([e], k)
  {
    assert [e][..0] == [];
    if t == [] || Key(t[|t| - 1]) >= Key(e) {
      WithKeyAppend(t, [e], k);
    } else {
      var init, last := t[..|t| - 1], t[|t| - 1];
      InsertKeepsGroups(init, e, k);
      assert Insert(t, e)[..|Insert(t, e)| - 1] == Insert(init, e);
    }
  }

  /** The insertion sort returns a permutation of its input. */
  lemma {:induction false} InsertionSortPermutes(s: seq<Attribution>)
    ensures multiset(InsertionSort(s)) == multiset(s)
  {
    if s != [] {
      InsertionSortPermutes(s[..|s| - 1]);
      InsertPermutes(InsertionSort(s[..|s| - 1]), s[|s| - 1]);
      assert s == s[..|s| - 1] + [s[|s| - 1]];
    }
  }

  /** The insertion sort orders by non-increasing absolute impact. */
  lemma {:induction false} InsertionSortSorted(s: seq<Attribution>)
    ensures SortedByImpact(InsertionSort(s))
  {
    if s != [] {
      InsertionSortSorted(s[..|s| - 1]);
      InsertSorted(InsertionSort(s[..|s| - 1]), s[|s| - 1]);
    }
  }

  /** The insertion sort is stable: entries with equal absolute impact keep their order. */
  lemma {:induction false} InsertionSortStable(s: seq<Attribution>)
    ensures StableReordering(s, InsertionSort(s))
  {
    if s != [] {
      var init, last := s[..|s| - 1], s[|s| - 1];
      InsertionSortStable(init);
      forall k ensures WithKey(InsertionSort(s), k) == WithKey(s, k) {
        InsertKeepsGroups(InsertionSort(init), last, k);
        assert [last][..0] == [];
      }
    }
  }

  /** Two sorted lists with the same key groups end with entries of the same key: the
      smallest key of each occurs in the other. */
  lemma LastKeysAgree(t1: seq<Attribution>, t2: seq<Attribution>)
    requires SortedByImpact(t1) && SortedByImpact(t2) && t1 != [] && t2 != []
    requires forall k :: WithKey(t1, k) == WithKey(t2, k)
    ensures Key(t1[|t1| - 1]) == Key(t2[|t2| - 1])
  {
    var k1, k2 := Key(t1[|t1| - 1]), Key(t2[|t2| - 1]);
    LastHasNonEmptyGroup(t1);
    LastHasNonEmptyGroup(t2);
    WithKeyMembers(t1, k2);
    WithKeyMembers(t2, k1);
    assert WithKey(t2, k1) != [] && WithKey(t1, k2) != [];
    var x1 := WithKey(t2, k1)[0];
    var x2 := WithKey(t1, k2)[0];
    assert x1 in WithKey(t2, k1) && x2 in WithKey(t1, k2);
    SortedAtLeastLast(t1, x2);
    SortedAtLeastLast(t2, x1);
  }

  lemma AppendCancel(a: seq<Attribution>, b: seq<Attribution>, c: seq<Attribution>)
    requires a + c == b + c
    ensures a == b
  {
    assert |a| == |b|;
    assert a == (a + c)[..|a|] && b == (b + c)[..|b|];
  }

  /** The group of `k` in `t` is that of its prefix, plus the last entry if it has key `k`. */
  lemma WithKeySnoc(t: seq<Attribution>, k: real)
    requires t != []
    ensures WithKey(t, k) ==
            WithKey(t[..|t| - 1], k) + (if Key(t[|t| - 1]) == k then [t[|t| - 1]] else [])
  {
  }

  /** Dropping the last entry of a group, when both lists end with it, keeps the groups equal. */
  lemma GroupsOfInitsAgree(t1: seq<Attribution>, t2: seq<Attribution>)
    requires t1 != [] && t2 != [] && Key(t1[|t1| - 1]) == Key(t2[|t2| - 1])
    requires forall k :: WithKey(t1, k) == WithKey(t2, k)
    ensures t1[|t1| - 1] == t2[|t2| - 1]
    ensures StableReordering(t2[..|t2| - 1], t1[..|t1| - 1])
  {
    var l1, l2 := t1[|t1| - 1], t2[|t2| - 1];
    var i1, i2 := t1[..|t1| - 1], t2[..|t2| - 1];
    assert l1 == l2 by {
      var g := WithKey(t1, Key(l1));
      WithKeySnoc(t1, Key(l1));
      WithKeySnoc(t2, Key(l1));
      assert g[|g| - 1] == l1;
      assert g == WithKey(t2, Key(l1));
    }
    forall k ensures WithKey(i1, k) == WithKey(i2, k) {
      WithKeySnoc(t1, k);
      WithKeySnoc(t2, k);
      assert WithKey(t1, k) == WithKey(t2, k);
      AppendCancel(WithKey(i1, k), WithKey(i2, k), if Key(l1) == k then [l1] else []);
    }
  }

  /** Two sorted, stable reorderings of the same list are equal: these properties fix
      the result, so any stable sort by descending absolute impact (Python's `list.sort`
      with `reverse=True` among them) returns what `InsertionSort` returns. */
  lemma {:induction false} StableSortIsUnique(t1: seq<Attribution>, t2: seq<Attribution>)
    requires SortedByImpact(t1) && SortedByImpact(t2)
    requires forall k :: WithKey(t1, k) == WithKey(t2, k)
    ensures t1 == t2
    decreases |t1| + |t2|
  {
    if t1 == [] && t2 == [] {
    } else if t1 == [] {
      LastHasNonEmptyGroup(t2);
      assert false;
    } else if t2 == [] {
      LastHasNonEmptyGroup(t1);
      assert false;
    } else {
      LastKeysAgree(t1, t2);
      GroupsOfInitsAgree(t1, t2);
      SortedPrefix(t1, |t1| - 1);
      SortedPrefix(t2, |t2| - 1);
      StableSortIsUnique(t1[..|t1| - 1], t2[..|t2| - 1]);
      assert t1 == t1[..|t1| - 1] + [t1[|t1| - 1]];
      assert t2 == t2[..|t2| - 1] + [t2[|t2| - 1]];
    }
  }

  lemma LastHasNonEmptyGroup(t: seq<Attribution>)
    requires t != []
    ensures WithKey(t, Key(t[|t| - 1])) != []
  {
  }

  lemma SortedAtLeastLast(t: seq<Attribution>, x: Attribution)
    requires SortedByImpact(t) && x in t
    ensures Key(x) >= Key(t[|t| - 1])
  {
    var i :| 0 <= i < |t| && t[i] == x;
    if i < |t| - 1 {
      assert Key(t[i]) >= Key(t[|t| - 1]);
    }
  }

  /** Counting keyed entries over prefixes: a longer prefix holds at least as many, and
      strictly more when it adds an entry with the key. */
  lemma WithKeyPrefixGrows(s: seq<Attribution>, i: nat, j: nat, k: real)
    requires i <= j <= |s|
    ensures |WithKey(s[..i], k)| <= |WithKey(s[..j], k)|
    ensures i < j && Key(s[i]) == k ==> |WithKey(s[..i], k)| < |WithKey(s[..j], k)|
  {
    assert s[..j] == s[..i] + s[i..j];
    WithKeyAppend(s[..i], s[i..j], k);
    if i < j {
      assert s[i..j] == [s[i]] + s[i + 1..j];
      WithKeyAppend([s[i]], s[i + 1..j], k);
      assert [s[i]][..0] == [];
    }
  }

  /** An entry with key `k` sits in the group of `k` after the keyed entries before it. */
  lemma WithKeyIndex(s: seq<Attribution>, i: nat, k: real)
    requires i < |s| && Key(s[i]) == k
    ensures |WithKey(s[..i], k)| < |WithKey(s, k)|
    ensures WithKey(s, k)[|WithKey(s[..i], k)|] == s[i]
  {
    assert s == s[..i] + [s[i]] + s[i + 1..];
    WithKeyAppend(s[..i] + [s[i]], s[i + 1..], k);
    WithKeyAppend(s[..i], [s[i]], k);
    assert [s[i]][..0] == [];
  }

  /** Every member of the group of `k` comes from a position of the sequence. */
  lemma {:induction false} WithKeyOrigin(s: seq<Attribution>, k: real, g: nat)
    requires g < |WithKey(s, k)|
    ensures exists i :: 0 <= i < |s| && Key(s[i]) == k && |WithKey(s[..i], k)| == g &&
                        s[i] == WithKey(s, k)[g]
  {
    var init := s[..|s| - 1];
    if g < |WithKey(init, k)| {
      WithKeyOrigin(init, k, g);
      var i :| 0 <= i < |init| && Key(init[i]) == k && |WithKey(init[..i], k)| == g &&
               init[i] == WithKey(init, k)[g];
      assert init[..i] == s[..i];
    } else {
      assert s[..|s| - 1] == init;
    }
  }

  /** Stability, position by position: two entries that tie on the key appear in the
      reordering in the same order as in the original. */
  lemma StableKeepsTieOrder(s: seq<Attribution>, t: seq<Attribution>, i: nat, j: nat)
    requires StableReordering(s, t)
    requires i < j < |t| && Key(t[i]) == Key(t[j])
    ensures exists i', j' :: 0 <= i' < j' < |s| && s[i'] == t[i] && s[j'] == t[j]
  {
    var k := Key(t[i]);
    assert WithKey(t, k) == WithKey(s, k);
    WithKeyIndex(t, i, k);
    WithKeyIndex(t, j, k);
    WithKeyPrefixGrows(t, i, j, k);
    var a, b := |WithKey(t[..i], k)|, |WithKey(t[..j], k)|;
    WithKeyOrigin(s, k, a);
    WithKeyOrigin(s, k, b);
    var i' :| 0 <= i' < |s| && Key(s[i']) == k && |WithKey(s[..i'], k)| == a && s[i'] == WithKey(s, k)[a];
    var j' :| 0 <= j' < |s| && Key(s[j']) == k && |WithKey(s[..j'], k)| == b && s[j'] == WithKey(s, k)[b];
    if j' <= i' {
      WithKeyPrefixGrows(s, j', i', k);
      assert false;
    }
  }

  /** `Insert` places `e` right after the last entry whose key is at least `e`'s. */
  lemma {:induction false} InsertSplits(p: seq<Attribution>, j: nat, e: Attribution)
    requires j <= |p|
    requires j == 0 || Key(p[j - 1]) >= Key(e)
    requires forall k :: j <= k < |p| ==> Key(p[k]) < Key(e)
    ensures Insert(p, e) == p[..j] + [e] + p[j..]
    decreases |p|
  {
    if |p| > j {
      var init := p[..|p| - 1];
      assert init[..j] == p[..j];
      InsertSplits(init, j, e);
      assert p[j..] == init[j..] + [p[|p| - 1]];
    }
  }

  /** One step of the insertion sort: moves `a[i]` left past the entries of the sorted
      prefix `a[..i]` whose key is smaller, leaving the rest of the array alone. */
  method InsertAt(a: array<Attribution>, i: nat)
    requires i < a.Length
    modifies a
    ensures a[..i + 1] == Insert(old(a[..i]), old(a[i]))
    ensures a[i + 1..] == old(a[i + 1..])
  {
    ghost var prefix := a[..i];
    var e := a[i];
    var j := i;
    while j > 0 && Key(a[j - 1]) < Key(e)
      invariant 0 <= j <= i
      invariant a[j] == e
      invariant forall k :: 0 <= k < j ==> a[k] == prefix[k]
      invariant forall k :: j < k <= i ==> a[k] == prefix[k - 1]
      invariant forall k :: i < k < a.Length ==> a[k] == old(a[k])
      invariant forall k :: j <= k < i ==> Key(prefix[k]) < Key(e)
    {
      a[j - 1], a[j] := a[j], a[j - 1];
      j := j - 1;
    }
    InsertSplits(prefix, j, e);
    assert a[..i + 1] == prefix[..j] + [e] + prefix[j..];
    assert a[i + 1..] == old(a[i + 1..]);
  }

  /** The list sort of app.py, line 83, done in place: stable insertion sort by
      descending absolute impact. */
  method SortByImpact(a: array<Attribution>)
    modifies a
    ensures a[..] == InsertionSort(old(a[..]))
  {
    var i := 0;
    while i < a.Length
      invariant 0 <= i <= a.Length
      invariant a[..i] == InsertionSort(old(a[..])[..i])
      invariant a[i..] == old(a[..])[i..]
    {
      assert old(a[..])[..i + 1][..i] == old(a[..])[..i];
      InsertAt(a, i);
      i := i + 1;
    }
    assert a[..] == a[..a.Length];
    assert old(a[..]) == old(a[..])[..a.Length];
  }
}
