/** Sequence vocabulary shared by the model: subsequences, order-preserving
    filters (`Array.prototype.filter`) and first-match search (`Array.prototype.find`). */
module Seqs {
  import opened Wrappers

  /** `K` is a strictly increasing list of indices into `s` that picks out `r`. */
  ghost predicate Embedding<T>(K: seq<nat>, r: seq<T>, s: seq<T>)
  {
    && |K| == |r|
    && (forall j :: 0 <= j < |K| ==> K[j] < |s| && r[j] == s[K[j]])
    && (forall j, j' :: 0 <= j < j' < |K| ==> K[j] < K[j'])
  }

  /** `r` is obtained from `s` by deleting elements, keeping the order of the rest. */
  ghost predicate IsSubsequence<T>(r: seq<T>, s: seq<T>)
  {
    exists K :: Embedding(K, r, s)
  }

  /** Adds `k` to every index. */
  function Shift(K: seq<nat>, k: nat): (r: seq<nat>)
    ensures |r| == |K|
    ensures forall j :: 0 <= j < |K| ==> r[j] == K[j] + k
  {
    seq(|K|, j requires 0 <= j < |K| => K[j] + k)
  }

  /** A subsequence of the tail is a subsequence of the whole, with or without the head. */
  lemma SubsequenceCons<T>(r: seq<T>, s: seq<T>)
    requires |s| > 0 && IsSubsequence(r, s[1..])
    ensures IsSubsequence(r, s)
    ensures IsSubsequence([s[0]] + r, s)
  {
    var K :| Embedding(K, r, s[1..]);
    var K1 := Shift(K, 1);
    assert Embedding(K1, r, s);
    var K0 := [0] + K1;
    assert Embedding(K0, [s[0]] + r, s);
  }

  /** The elements of `s` that satisfy `p`, in their original order. */
  function Filter<T>(s: seq<T>, p: T -> bool): (r: seq<T>)
    ensures |r| <= |s|
    ensures forall x :: x in r ==> x in s && p(x)
    ensures forall i :: 0 <= i < |s| && p(s[i]) ==> s[i] in r
  {
    if s == [] then []
    else if p(s[0]) then [s[0]] + Filter(s[1..], p)
    else Filter(s[1..], p)
  }

  /** The filter keeps the order of the elements it keeps. */
  lemma {:induction false} FilterIsSubsequence<T>(s: seq<T>, p: T -> bool)
    ensures IsSubsequence(Filter(s, p), s)
  {
    if s == [] {
      assert Embedding([], [], s);
    } else {
      FilterIsSubsequence(s[1..], p);
      SubsequenceCons(Filter(s[1..], p), s);
    }
  }

  /** Concatenation is associative. */
  lemma AppendAssoc<T>(a: seq<T>, b: seq<T>, c: seq<T>)
    ensures a + (b + c) == (a + b) + c
  {
  }

  /** Filtering a sequence with a known head. */
  lemma ConsTail<T>(x: T, s: seq<T>)
    ensures ([x] + s)[0] == x && ([x] + s)[1..] == s
  {
  }

  lemma HeadTail<T>(s: seq<T>)
    requires s != []
    ensures s == [s[0]] + s[1..]
  {
  }

  lemma TailAppend<T>(a: seq<T>, b: seq<T>)
    requires a != []
    ensures (a + b)[0] == a[0] && (a + b)[1..] == a[1..] + b
  {
  }

  lemma InAppend<T>(x: T, a: seq<T>, b: seq<T>)
    ensures x in a + b <==> x in a || x in b
  {
  }

  lemma FilterCons<T>(x: T, s: seq<T>, p: T -> bool)
    ensures Filter([x] + s, p) == (if p(x) then [x] else []) + Filter(s, p)
  {
    ConsTail(x, s);
  }

  /** Filtering distributes over concatenation. */
  lemma {:induction false} FilterAppend<T>(a: seq<T>, b: seq<T>, p: T -> bool)
    ensures Filter(a + b, p) == Filter(a, p) + Filter(b, p)
  {
    if a != [] {
      FilterAppend(a[1..], b, p);
      var h := if p(a[0]) then [a[0]] else [];
      TailAppend(a, b);
      assert Filter(a + b, p) == h + Filter(a[1..] + b, p);
      AppendAssoc(h, Filter(a[1..], p), Filter(b, p));
    } else {
      assert a + b == b;
    }
  }

  /** The number of elements that pass `p`. */
  function CountWhere<T>(s: seq<T>, p: T -> bool): nat
  {
    if s == [] then 0 else (if p(s[0]) then 1 else 0) + CountWhere(s[1..], p)
  }

  /** Counting the passing elements is the length of their filter. */
  lemma {:induction false} CountWhereFilter<T>(s: seq<T>, p: T -> bool)
    ensures CountWhere(s, p) == |Filter(s, p)|
    decreases |s|
  {
    if s != [] {
      CountWhereFilter(s[1..], p);
    }
  }

  /** Two sequences of equal length whose elements pass their tests at the same
      positions have equally many passing elements. */
  lemma {:induction false} CountWhereMatch<A, B>(a: seq<A>, p: A -> bool, b: seq<B>, q: B -> bool)
    requires |a| == |b|
    requires forall i :: 0 <= i < |a| ==> (p(a[i]) <==> q(b[i]))
    ensures CountWhere(a, p) == CountWhere(b, q)
    decreases |a|
  {
    if a != [] {
      assert forall i :: 0 <= i < |a| - 1 ==> a[1..][i] == a[i + 1] && b[1..][i] == b[i + 1];
      CountWhereMatch(a[1..], p, b[1..], q);
    }
  }

  /** Nothing passes a filter that no element satisfies. */
  lemma {:induction false} FilterNone<T>(s: seq<T>, p: T -> bool)
    requires forall i :: 0 <= i < |s| ==> !p(s[i])
    ensures Filter(s, p) == []
  {
    if s != [] {
      assert forall i :: 0 <= i < |s[1..]| ==> s[1..][i] == s[i + 1];
      FilterNone(s[1..], p);
    }
  }

  /** Index of the first element of `s` that satisfies `p`, as `findIndex` computes it. */
  function FirstIndex<T>(s: seq<T>, p: T -> bool): (r: Option<nat>)
    ensures r.None? <==> forall i :: 0 <= i < |s| ==> !p(s[i])
    ensures r.Some? ==> r.value < |s| && p(s[r.value])
    ensures r.Some? ==> forall j :: 0 <= j < r.value ==> !p(s[j])
  {
    if s == [] then None
    else if p(s[0]) then Some(0)
    else match FirstIndex(s[1..], p)
      case None => None
      case Some(i) => Some(i + 1)
  }

  /** `s.find(p)`: the first element that satisfies `p`. */
  function Find<T>(s: seq<T>, p: T -> bool): (r: Option<T>)
    ensures r.None? <==> forall i :: 0 <= i < |s| ==> !p(s[i])
    ensures r.Some? ==> exists i :: (0 <= i < |s| && s[i] == r.value && p(s[i])
      && forall j :: 0 <= j < i ==> !p(s[j]))
  {
    match FirstIndex(s, p)
    case None => None
    case Some(i) => Some(s[i])
  }

  /** Concatenation of a list of lists (`flat()` one level). */
  function Flatten<T>(ss: seq<seq<T>>): seq<T>
  {
    if ss == [] then [] else ss[0] + Flatten(ss[1..])
  }

  lemma {:induction false} FlattenAppend<T>(a: seq<seq<T>>, b: seq<seq<T>>)
    ensures Flatten(a + b) == Flatten(a) + Flatten(b)
  {
    if a != [] {
      FlattenAppend(a[1..], b);
      assert (a + b)[1..] == a[1..] + b;
    } else {
      assert a + b == b;
    }
  }

  /** Sum of a list of naturals. */
  function SumNat(xs: seq<nat>): nat
  {
    if xs == [] then 0 else xs[0] + SumNat(xs[1..])
  }

  /** The length of a flattened list is the sum of the lengths of its parts. */
  lemma {:induction false} FlattenLength<T>(ss: seq<seq<T>>)
    ensures |Flatten(ss)| == SumNat(seq(|ss|, i requires 0 <= i < |ss| => |ss[i]|))
  {
    if ss != [] {
      FlattenLength(ss[1..]);
      var lens := seq(|ss|, i requires 0 <= i < |ss| => |ss[i]|);
      assert lens[1..] == seq(|ss[1..]|, i requires 0 <= i < |ss[1..]| => |ss[1..][i]|);
    }
  }

  /** Non-increasing by `key`. */
  ghost predicate SortedDesc<T>(s: seq<T>, key: T -> int)
  {
    forall i, j :: 0 <= i < j < |s| ==> key(s[i]) >= key(s[j])
  }

  /** Inserts `x` in front of the first element whose key is not above its own. */
  function InsertDesc<T>(x: T, s: seq<T>, key: T -> int): (r: seq<T>)
    requires SortedDesc(s, key)
    ensures SortedDesc(r, key)
    ensures |r| == |s| + 1
    ensures forall i :: 0 <= i < |r| ==> r[i] == x || r[i] in s
    ensures multiset(r) == multiset(s) + multiset{x}
  {
    if s == [] || key(x) >= key(s[0]) then
      InsertDescFront(x, s, key);
      [x] + s
    else
      var t := InsertDesc(x, s[1..], key);
      InsertDescBehind(x, s, t, key);
      [s[0]] + t
  }

  /** `x` goes in front when its key is at least the first one's. */
  lemma InsertDescFront<T>(x: T, s: seq<T>, key: T -> int)
    requires SortedDesc(s, key)
    requires s == [] || key(x) >= key(s[0])
    ensures SortedDesc([x] + s, key)
    ensures forall i :: 0 <= i < |[x] + s| ==> ([x] + s)[i] == x || ([x] + s)[i] in s
    ensures multiset([x] + s) == multiset(s) + multiset{x}
  {
    forall i, j | 0 <= i < j < |[x] + s| ensures key(([x] + s)[i]) >= key(([x] + s)[j]) {
      assert ([x] + s)[j] == s[j - 1];
      if i > 0 {
        assert ([x] + s)[i] == s[i - 1];
      } else {
        assert key(s[0]) >= key(s[j - 1]);
      }
    }
  }

  /** `x` goes behind the first element when its key is below the first one's. */
  lemma InsertDescBehind<T>(x: T, s: seq<T>, t: seq<T>, key: T -> int)
    requires SortedDesc(s, key) && s != [] && key(x) < key(s[0])
    requires SortedDesc(t, key) && |t| == |s[1..]| + 1
    requires forall i :: 0 <= i < |t| ==> t[i] == x || t[i] in s[1..]
    requires multiset(t) == multiset(s[1..]) + multiset{x}
    ensures SortedDesc([s[0]] + t, key)
    ensures forall i :: 0 <= i < |[s[0]] + t| ==> ([s[0]] + t)[i] == x || ([s[0]] + t)[i] in s
    ensures multiset([s[0]] + t) == multiset(s) + multiset{x}
  {
    forall i | 0 <= i < |t| ensures key(t[i]) <= key(s[0]) {
      if t[i] != x {
        var k :| 0 <= k < |s[1..]| && s[1..][k] == t[i];
        assert s[1..][k] == s[k + 1];
      }
    }
    ConsSortedDesc(s[0], t, key);
    ConsMembers(x, s, t);
    HeadTail(s);
    assert multiset([s[0]] + t) == multiset{s[0]} + multiset(t);
  }

  /** An element whose key is at least every key of a sorted sequence may go in
      front of it. */
  lemma ConsSortedDesc<T>(h: T, t: seq<T>, key: T -> int)
    requires SortedDesc(t, key)
    requires forall i :: 0 <= i < |t| ==> key(t[i]) <= key(h)
    ensures SortedDesc([h] + t, key)
  {
    forall i, j | 0 <= i < j < |[h] + t| ensures key(([h] + t)[i]) >= key(([h] + t)[j]) {
      assert ([h] + t)[j] == t[j - 1];
      if i > 0 {
        assert ([h] + t)[i] == t[i - 1];
      }
    }
  }

  lemma ConsMembers<T>(x: T, s: seq<T>, t: seq<T>)
    requires s != []
    requires forall i :: 0 <= i < |t| ==> t[i] == x || t[i] in s[1..]
    ensures forall i :: 0 <= i < |[s[0]] + t| ==> ([s[0]] + t)[i] == x || ([s[0]] + t)[i] in s
  {
    forall i | 0 <= i < |[s[0]] + t| ensures ([s[0]] + t)[i] == x || ([s[0]] + t)[i] in s {
      if i > 0 {
        assert ([s[0]] + t)[i] == t[i - 1];
        if t[i - 1] != x {
          var k :| 0 <= k < |s[1..]| && s[1..][k] == t[i - 1];
          assert s[1..][k] == s[k + 1];
        }
      }
    }
  }

  /** Stable sort by `key`, largest first: `a.sort((a, b) => key(b) - key(a))`
      (the sort of ECMAScript 2019 and later is stable). */
  function SortDesc<T>(s: seq<T>, key: T -> int): (r: seq<T>)
    ensures SortedDesc(r, key)
    ensures multiset(r) == multiset(s)
    ensures |r| == |s|
  {
    if s == [] then []
    else
      assert s == [s[0]] + s[1..];
      InsertDesc(s[0], SortDesc(s[1..], key), key)
  }

  /** The elements whose key is `v`, in order. */
  function WithKey<T>(s: seq<T>, key: T -> int, v: int): seq<T>
  {
    if s == [] then [] else (if key(s[0]) == v then [s[0]] else []) + WithKey(s[1..], key, v)
  }

  /** The picked elements come from the input and carry the key. */
  lemma {:induction false} WithKeySubset<T>(s: seq<T>, key: T -> int, v: int)
    ensures forall x :: x in WithKey(s, key, v) ==> x in s && key(x) == v
  {
    if s != [] {
      WithKeySubset(s[1..], key, v);
    }
  }

  lemma WithKeyCons<T>(h: T, s: seq<T>, key: T -> int, v: int)
    ensures WithKey([h] + s, key, v) == (if key(h) == v then [h] else []) + WithKey(s, key, v)
  {
    ConsTail(h, s);
  }

  lemma {:induction false} WithKeyInsert<T>(x: T, s: seq<T>, key: T -> int, v: int)
    requires SortedDesc(s, key)
    ensures WithKey(InsertDesc(x, s, key), key, v) == (if key(x) == v then [x] else []) + WithKey(s, key, v)
  {
    if s == [] || key(x) >= key(s[0]) {
      WithKeyCons(x, s, key, v);
    } else {
      var t := InsertDesc(x, s[1..], key);
      WithKeyInsert(x, s[1..], key, v);
      WithKeyCons(s[0], t, key, v);
      WithKeyCons(s[0], s[1..], key, v);
      assert [s[0]] + s[1..] == s;
    }
  }

  /** The sort is stable: the elements with any one key keep their input order. */
  lemma {:induction false} SortDescStable<T>(s: seq<T>, key: T -> int, v: int)
    ensures WithKey(SortDesc(s, key), key, v) == WithKey(s, key, v)
  {
    if s != [] {
      SortDescStable(s[1..], key, v);
      WithKeyInsert(s[0], SortDesc(s[1..], key), key, v);
    }
  }

  /** The first components are pairwise distinct, as the keys of an object literal are. */
  ghost predicate DistinctKeys<K, V>(s: seq<(K, V)>)
  {
    forall i, j :: 0 <= i < j < |s| ==> s[i].0 != s[j].0
  }

  /** `k` is not among the first components. */
  ghost predicate KeyAbsent<K, V>(s: seq<(K, V)>, k: K)
  {
    forall i :: 0 <= i < |s| ==> s[i].0 != k
  }

  /** The tail of a list with distinct keys has distinct keys, none equal to the head's. */
  lemma DistinctKeysTail<K, V>(s: seq<(K, V)>)
    requires |s| > 0 && DistinctKeys(s)
    ensures DistinctKeys(s[1..]) && KeyAbsent(s[1..], s[0].0)
  {
    forall i, j | 0 <= i < j < |s[1..]| ensures s[1..][i].0 != s[1..][j].0 {
      assert s[1..][i] == s[i + 1] && s[1..][j] == s[j + 1];
    }
    forall i | 0 <= i < |s[1..]| ensures s[1..][i].0 != s[0].0 {
      assert s[1..][i] == s[i + 1];
    }
  }

  /** A key absent from a non-empty list is absent from its tail and differs from its head. */
  lemma KeyAbsentTailAll<K, V>(s: seq<(K, V)>)
    requires |s| > 0
    ensures forall k :: KeyAbsent(s, k) ==> KeyAbsent(s[1..], k) && s[0].0 != k
  {
    forall k | KeyAbsent(s, k) ensures KeyAbsent(s[1..], k) && s[0].0 != k {
      forall i | 0 <= i < |s[1..]| ensures s[1..][i].0 != k {
        assert s[1..][i] == s[i + 1];
      }
    }
  }
}
