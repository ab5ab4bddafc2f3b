/**
 * A stable sort by descending integer key, the shape of JavaScript's
 * `Array.prototype.sort((a, b) => key(b) - key(a))` (the sort is stable
 * since ES2019). The sort is defined as an insertion sort on sequences; its
 * partners are sortedness and stability: for every key value, the elements
 * carrying it keep their input order.
 */
module Sorting {

  /** Non-increasing by key. */
  predicate SortedDesc<T>(s: seq<T>, key: T -> int) {
    forall i, j :: 0 <= i < j < |s| ==> key(s[i]) >= key(s[j])
  }

  /** `s.filter(keep)`. */
  function Keep<T>(s: seq<T>, keep: T -> bool): (r: seq<T>)
    ensures |r| <= |s|
    ensures forall i :: 0 <= i < |r| ==> keep(r[i])
    ensures forall x :: x in r ==> x in s
  {
    if |s| == 0 then []
    else (if keep(s[0]) then [s[0]] else []) + Keep(s[1..], keep)
  }

  /** The elements whose key is `k`, in their order in `s`. */
  function WithKey<T>(s: seq<T>, key: T -> int, k: int): (r: seq<T>)
    ensures |r| <= |s|
    ensures forall i :: 0 <= i < |r| ==> key(r[i]) == k
  {
    if |s| == 0 then []
    else (if key(s[0]) == k then [s[0]] else []) + WithKey(s[1..], key, k)
  }

  /** `x` placed after every element whose key is at least its own. */
  function Insert<T>(x: T, s: seq<T>, key: T -> int): (r: seq<T>)
    ensures |r| == |s| + 1
    ensures multiset(r) == multiset(s) + multiset{x}
  {
    if |s| == 0 then [x]
    else if key(s[0]) >= key(x) then
      assert s == [s[0]] + s[1..];
      [s[0]] + Insert(x, s[1..], key)
    else [x] + s
  }

  /** Each element, taken in input order, is inserted into the sorted prefix. */
  function SortDesc<T>(xs: seq<T>, key: T -> int): (r: seq<T>)
    ensures |r| == |xs|
    ensures multiset(r) == multiset(xs)
  {
    if |xs| == 0 then []
    else
      assert xs == xs[..|xs| - 1] + [xs[|xs| - 1]];
      Insert(xs[|xs| - 1], SortDesc(xs[..|xs| - 1], key), key)
  }

  lemma {:induction false} InsertSorted<T>(x: T, s: seq<T>, key: T -> int)
    requires SortedDesc(s, key)
    ensures SortedDesc(Insert(x, s, key), key)
  {
    if |s| > 0 && key(s[0]) >= key(x) {
      InsertSorted(x, s[1..], key);
      var t := Insert(x, s[1..], key);
      assert forall j :: 0 <= j < |t| ==> key(s[0]) >= key(t[j]) by {
        forall j | 0 <= j < |t|
          ensures key(s[0]) >= key(t[j])
        {
          assert t[j] in multiset(s[1..]) + multiset{x};
          if t[j] in multiset(s[1..]) {
            assert t[j] in s[1..];
          }
        }
      }
    }
  }

  /** The sort's result is non-increasing by key. */
  lemma {:induction false} SortDescSorted<T>(xs: seq<T>, key: T -> int)
    ensures SortedDesc(SortDesc(xs, key), key)
  {
    if |xs| > 0 {
      SortDescSorted(xs[..|xs| - 1], key);
      InsertSorted(xs[|xs| - 1], SortDesc(xs[..|xs| - 1], key), key);
    }
  }

  lemma {:induction false} WithKeyAppend<T>(a: seq<T>, b: seq<T>, key: T -> int, k: int)
    ensures WithKey(a + b, key, k) == WithKey(a, key, k) + WithKey(b, key, k)
  {
    if |a| > 0 {
      WithKeyAppend(a[1..], b, key, k);
      assert (a + b)[1..] == a[1..] + b;
    } else {
      assert a + b == b;
    }
  }

  lemma {:induction false} WithKeyAbsent<T>(s: seq<T>, key: T -> int, k: int)
    requires forall i :: 0 <= i < |s| ==> key(s[i]) != k
    ensures WithKey(s, key, k) == []
  {
    if |s| > 0 {
      WithKeyAbsent(s[1..], key, k);
    }
  }

  lemma {:induction false} InsertWithKey<T>(x: T, s: seq<T>, key: T -> int, k: int)
    requires SortedDesc(s, key)
    ensures WithKey(Insert(x, s, key), key, k) == WithKey(s, key, k) + (if key(x) == k then [x] else [])
  {
    if |s| == 0 {
      WithKeySingle(x, key, k);
      assert WithKey(s, key, k) == [];
    } else if key(s[0]) >= key(x) {
      SortedTail(s, key);
      InsertWithKey(x, s[1..], key, k);
      InsertWithKeyBehind(x, s, key, k);
    } else {
      InsertWithKeyInFront(x, s, key, k);
    }
  }

  /** The step of `InsertWithKey` where `x` goes behind the head. */
  lemma InsertWithKeyBehind<T>(x: T, s: seq<T>, key: T -> int, k: int)
    requires |s| > 0 && key(s[0]) >= key(x)
    requires WithKey(Insert(x, s[1..], key), key, k) == WithKey(s[1..], key, k) + (if key(x) == k then [x] else [])
    ensures WithKey(Insert(x, s, key), key, k) == WithKey(s, key, k) + (if key(x) == k then [x] else [])
  {
    var single := if key(x) == k then [x] else [];
    var h := s[0];
    var t := s[1..];
    var head := if key(h) == k then [h] else [];
    var ins := Insert(x, t, key);
    InsertBehind(x, s, key);
    WithKeyHead(s, key, k);
    WithKeyCons(h, ins, key, k);
    Assoc(head, WithKey(t, key, k), single);
  }

  /** The key class of a non-empty sequence, unfolded once. */
  lemma WithKeyHead<T>(s: seq<T>, key: T -> int, k: int)
    requires |s| > 0
    ensures WithKey(s, key, k) == (if key(s[0]) == k then [s[0]] else []) + WithKey(s[1..], key, k)
  {
  }

  lemma Assoc<T>(a: seq<T>, b: seq<T>, c: seq<T>)
    ensures a + (b + c) == (a + b) + c
  {
  }

  /** The step of `InsertWithKey` where `x` goes in front: nothing in `s` shares its key. */
  lemma InsertWithKeyInFront<T>(x: T, s: seq<T>, key: T -> int, k: int)
    requires SortedDesc(s, key) && |s| > 0 && key(s[0]) < key(x)
    ensures WithKey(Insert(x, s, key), key, k) == WithKey(s, key, k) + (if key(x) == k then [x] else [])
  {
    SortedTail(s, key);
    InsertInFront(x, s, key);
    WithKeyCons(x, s, key, k);
    if key(x) == k {
      WithKeyAbsent(s, key, k);
    }
  }

  /** An element no larger than the head goes behind it. */
  lemma InsertBehind<T>(x: T, s: seq<T>, key: T -> int)
    requires |s| > 0 && key(s[0]) >= key(x)
    ensures Insert(x, s, key) == [s[0]] + Insert(x, s[1..], key)
  {
  }

  /** An element larger than the head goes in front of it. */
  lemma InsertInFront<T>(x: T, s: seq<T>, key: T -> int)
    requires |s| > 0 && key(s[0]) < key(x)
    ensures Insert(x, s, key) == [x] + s
  {
  }

  /** The tail of a sorted sequence is sorted, and the head has the largest key. */
  lemma SortedTail<T>(s: seq<T>, key: T -> int)
    requires SortedDesc(s, key) && |s| > 0
    ensures SortedDesc(s[1..], key)
    ensures forall i :: 0 <= i < |s| ==> key(s[i]) <= key(s[0])
  {
  }

  /** Stability: for every key, the elements carrying it keep their input order. */
  lemma {:induction false} SortDescStable<T>(xs: seq<T>, key: T -> int, k: int)
    ensures WithKey(SortDesc(xs, key), key, k) == WithKey(xs, key, k)
  {
    if |xs| > 0 {
      var init := xs[..|xs| - 1];
      var x := xs[|xs| - 1];
      SortDescStable(init, key, k);
      assert xs == init + [x];
      StableSnoc(init, x, key, k);
    }
  }

  /** The inductive step of stability: appending one element to a stably sorted input. */
  lemma StableSnoc<T>(init: seq<T>, x: T, key: T -> int, k: int)
    requires WithKey(SortDesc(init, key), key, k) == WithKey(init, key, k)
    ensures WithKey(SortDesc(init + [x], key), key, k) == WithKey(init + [x], key, k)
  {
    var xs := init + [x];
    assert xs[..|xs| - 1] == init;
    SortDescStep(xs, key);
    assert SortedDesc(SortDesc(init, key), key) by { SortDescSorted(init, key); }
    InsertWithKey(x, SortDesc(init, key), key, k);
    WithKeyAppend(init, [x], key, k);
    WithKeySingle(x, key, k);
  }

  /** One step of the sort: the last element is inserted into the sorted rest. */
  lemma SortDescStep<T>(xs: seq<T>, key: T -> int)
    requires |xs| > 0
    ensures SortDesc(xs, key) == Insert(xs[|xs| - 1], SortDesc(xs[..|xs| - 1], key), key)
  {
  }

  lemma WithKeySingle<T>(x: T, key: T -> int, k: int)
    ensures WithKey([x], key, k) == if key(x) == k then [x] else []
  {
    assert [x][1..] == [];
  }

  /** The sorted survivors of a filter all pass it and all come from the input. */
  lemma KeptSortedFacts<T>(xs: seq<T>, keep: T -> bool, key: T -> int)
    ensures forall x :: x in SortDesc(Keep(xs, keep), key) ==> keep(x) && x in xs
  {
    var kept := Keep(xs, keep);
    var r := SortDesc(kept, key);
    forall x | x in r ensures keep(x) && x in xs {
      assert x in multiset(r);
      assert x in multiset(kept);
      var j :| 0 <= j < |kept| && kept[j] == x;
    }
  }

  /** Dropping elements with other keys first changes nothing for key `k`. */
  lemma {:induction false} WithKeyKeep<T>(s: seq<T>, keep: T -> bool, key: T -> int, k: int)
    requires forall x :: key(x) == k ==> keep(x)
    ensures WithKey(Keep(s, keep), key, k) == WithKey(s, key, k)
  {
    if |s| > 0 {
      WithKeyKeep(s[1..], keep, key, k);
      WithKeyAppend(if keep(s[0]) then [s[0]] else [], Keep(s[1..], keep), key, k);
    }
  }

  /** The key classes of `s` for the key values `ks`, one after another. */
  function Tiers<T>(s: seq<T>, key: T -> int, ks: seq<int>): seq<T> {
    if |ks| == 0 then [] else WithKey(s, key, ks[0]) + Tiers(s, key, ks[1..])
  }

  predicate StrictlyDesc(ks: seq<int>) {
    forall i, j :: 0 <= i < j < |ks| ==> ks[i] > ks[j]
  }

  /** An element whose key is not among `ks` does not show in the tiers. */
  lemma {:induction false} TiersSkip<T>(a: T, t: seq<T>, key: T -> int, ks: seq<int>)
    requires key(a) !in ks
    ensures Tiers([a] + t, key, ks) == Tiers(t, key, ks)
  {
    if |ks| > 0 {
      TiersSkip(a, t, key, ks[1..]);
      WithKeyCons(a, t, key, ks[0]);
      TiersCons([a] + t, key, ks);
      TiersCons(t, key, ks);
    }
  }

  /** The key class of a sequence with a first element. */
  lemma WithKeyCons<T>(a: T, t: seq<T>, key: T -> int, k: int)
    ensures WithKey([a] + t, key, k) == (if key(a) == k then [a] else []) + WithKey(t, key, k)
  {
    assert ([a] + t)[1..] == t;
  }

  /** The tiers for a non-empty list of keys: the first class, then the rest. */
  lemma TiersCons<T>(s: seq<T>, key: T -> int, ks: seq<int>)
    requires |ks| > 0
    ensures Tiers(s, key, ks) == WithKey(s, key, ks[0]) + Tiers(s, key, ks[1..])
  {
  }

  /** A largest element comes first in the tiers. */
  lemma {:induction false} TiersHead<T>(a: T, t: seq<T>, key: T -> int, ks: seq<int>)
    requires StrictlyDesc(ks) && key(a) in ks
    requires forall i :: 0 <= i < |t| ==> key(t[i]) <= key(a)
    ensures Tiers([a] + t, key, ks) == [a] + Tiers(t, key, ks)
  {
    var k := ks[0];
    TiersCons([a] + t, key, ks);
    TiersCons(t, key, ks);
    WithKeyCons(a, t, key, k);
    if k > key(a) {
      WithKeyAbsent(t, key, k);
      assert key(a) in ks[1..];
      TiersHead(a, t, key, ks[1..]);
    } else {
      assert key(a) !in ks[1..];
      TiersSkip(a, t, key, ks[1..]);
    }
    HeadJoin(a, WithKey([a] + t, key, k), WithKey(t, key, k), Tiers([a] + t, key, ks[1..]), Tiers(t, key, ks[1..]),
             Tiers([a] + t, key, ks), Tiers(t, key, ks));
  }

  /** `a` joins either the first class or the rest; either way it ends up in front. */
  lemma HeadJoin<T>(a: T, first: seq<T>, first': seq<T>, later: seq<T>, later': seq<T>, whole: seq<T>, rest: seq<T>)
    requires whole == first + later && rest == first' + later'
    requires (first == [a] + first' && later == later') || (first == [] && first' == [] && later == [a] + later')
    ensures whole == [a] + rest
  {
    if later == later' {
      assert ([a] + first') + later' == [a] + (first' + later');
    } else {
      assert whole == [a] + later' && rest == later';
    }
  }

  /** A sorted sequence whose keys lie in `ks` (descending) is its own tiers. */
  lemma {:induction false} SortedIsTiers<T>(s: seq<T>, key: T -> int, ks: seq<int>)
    requires StrictlyDesc(ks) && SortedDesc(s, key)
    requires forall i :: 0 <= i < |s| ==> key(s[i]) in ks
    ensures s == Tiers(s, key, ks)
  {
    if |s| == 0 {
      TiersEmpty(s, key, ks);
    } else {
      var t := s[1..];
      SortedIsTiers(t, key, ks);
      TiersHead(s[0], t, key, ks);
      assert s == [s[0]] + t;
    }
  }

  lemma {:induction false} TiersEmpty<T>(s: seq<T>, key: T -> int, ks: seq<int>)
    requires |s| == 0
    ensures Tiers(s, key, ks) == []
  {
    if |ks| > 0 {
      TiersEmpty(s, key, ks[1..]);
    }
  }

  /** Sorting does not change the tiers. */
  lemma {:induction false} TiersOfSorted<T>(xs: seq<T>, key: T -> int, ks: seq<int>)
    ensures Tiers(SortDesc(xs, key), key, ks) == Tiers(xs, key, ks)
  {
    if |ks| > 0 {
      SortDescStable(xs, key, ks[0]);
      TiersOfSorted(xs, key, ks[1..]);
    }
  }

  /** Filtering away elements outside the tiers does not change them. */
  lemma {:induction false} TiersOfKept<T>(s: seq<T>, keep: T -> bool, key: T -> int, ks: seq<int>)
    requires forall x :: key(x) in ks ==> keep(x)
    ensures Tiers(Keep(s, keep), key, ks) == Tiers(s, key, ks)
  {
    if |ks| > 0 {
      WithKeyKeep(s, keep, key, ks[0]);
      TiersOfKept(s, keep, key, ks[1..]);
    }
  }

  /**
   * A stable descending sort of elements whose keys lie in `ks` lists the
   * elements of each key in turn, each class in input order.
   */
  lemma StableSortIsTiers<T>(xs: seq<T>, key: T -> int, ks: seq<int>)
    requires StrictlyDesc(ks)
    requires forall i :: 0 <= i < |xs| ==> key(xs[i]) in ks
    ensures SortDesc(xs, key) == Tiers(xs, key, ks)
  {
    var r := SortDesc(xs, key);
    SortDescSorted(xs, key);
    forall i | 0 <= i < |r| ensures key(r[i]) in ks {
      assert r[i] in multiset(xs);
    }
    SortedIsTiers(r, key, ks);
    TiersOfSorted(xs, key, ks);
  }

  /** No two elements share a key. */
  predicate DistinctKeys<T>(s: seq<T>, key: T -> int) {
    forall i, j :: 0 <= i < j < |s| ==> key(s[i]) != key(s[j])
  }

  lemma {:induction false} WithKeyAtMostOne<T>(s: seq<T>, key: T -> int, k: int)
    requires DistinctKeys(s, key)
    ensures |WithKey(s, key, k)| <= 1
  {
    if |s| > 0 {
      WithKeyAtMostOne(s[1..], key, k);
      if key(s[0]) == k {
        assert forall i :: 0 <= i < |s[1..]| ==> key(s[1..][i]) != k by {
          forall i | 0 <= i < |s[1..]| ensures key(s[1..][i]) != k {
            assert s[1..][i] == s[i + 1];
          }
        }
        WithKeyAbsent(s[1..], key, k);
      }
    }
  }

  lemma {:induction false} WithKeyAtLeastOne<T>(s: seq<T>, key: T -> int, j: int)
    requires 0 <= j < |s|
    ensures |WithKey(s, key, key(s[j]))| >= 1
  {
    if j > 0 {
      assert s[1..][j - 1] == s[j];
      WithKeyAtLeastOne(s[1..], key, j - 1);
    }
  }

  lemma {:induction false} WithKeyAtLeastTwo<T>(s: seq<T>, key: T -> int, i: int, j: int)
    requires 0 <= i < j < |s| && key(s[i]) == key(s[j])
    ensures |WithKey(s, key, key(s[i]))| >= 2
  {
    assert s[1..][j - 1] == s[j];
    if i == 0 {
      WithKeyAtLeastOne(s[1..], key, j - 1);
    } else {
      assert s[1..][i - 1] == s[i];
      WithKeyAtLeastTwo(s[1..], key, i - 1, j - 1);
    }
  }

  /** Sorting keeps keys distinct. */
  lemma SortKeepsDistinct<T>(xs: seq<T>, key: T -> int)
    requires DistinctKeys(xs, key)
    ensures DistinctKeys(SortDesc(xs, key), key)
  {
    var r := SortDesc(xs, key);
    forall i, j | 0 <= i < j < |r| ensures key(r[i]) != key(r[j]) {
      if key(r[i]) == key(r[j]) {
        WithKeyAtMostOne(xs, key, key(r[i]));
        SortDescStable(xs, key, key(r[i]));
        WithKeyAtLeastTwo(r, key, i, j);
      }
    }
  }
}
