/** Python's stable `list.sort(key=...)` / `sorted(..., key=...)` on an integer key, and the
    two complementary list comprehensions that split a list at a key threshold. */
module Seqs {
  import opened Wrappers

  lemma AppendAssoc<T>(a: seq<T>, b: seq<T>, c: seq<T>)
    ensures a + (b + c) == (a + b) + c
  {
  }

  lemma AppendDrop<T>(a: seq<T>, b: seq<T>)
    ensures (a + b)[|a|..] == b
  {
  }

  lemma AppendTake<T>(a: seq<T>, b: seq<T>, c: seq<T>)
    ensures (a + b + c)[..|a|] == a
    ensures (a + b + c)[0..|a|] == a
  {
  }

  lemma FourParts<T>(a: seq<T>, b: seq<T>, c: seq<T>, d: seq<T>)
    ensures var s := a + b + c + d;
      s[|a|..|a| + |b|] == b && s[|a| + |b|..|a| + |b| + |c|] == c && s[|a| + |b| + |c|..] == d
  {
  }

  lemma EmptyAppend<T>(a: seq<T>)
    ensures [] + a == a
  {
  }

  lemma AppendEmpty<T>(a: seq<T>)
    ensures a + [] == a
  {
  }

  predicate SortedBy<T>(s: seq<T>, key: T -> int) {
    forall i, j :: 0 <= i < j < |s| ==> key(s[i]) <= key(s[j])
  }

  /** Places `x` after every element of `s` whose key is at most `key(x)`; on a sorted `s`
      that is where a stable sort puts an element that came last in its input. */
  function Insert<T>(s: seq<T>, x: T, key: T -> int): (r: seq<T>)
    ensures multiset(r) == multiset(s) + multiset{x}
    ensures |r| == |s| + 1
  {
    if s == [] || key(s[|s| - 1]) <= key(x) then s + [x]
    else
      assert s == s[..|s| - 1] + [s[|s| - 1]];
      Insert(s[..|s| - 1], x, key) + [s[|s| - 1]]
  }

  /** Stable insertion sort: the last element is inserted into the sorted rest. */
  function SortBy<T>(s: seq<T>, key: T -> int): (r: seq<T>)
    ensures multiset(r) == multiset(s)
    ensures |r| == |s|
  {
    if s == [] then []
    else
      assert s == s[..|s| - 1] + [s[|s| - 1]];
      Insert(SortBy(s[..|s| - 1], key), s[|s| - 1], key)
  }

  lemma {:induction false} InsertSorted<T>(s: seq<T>, x: T, key: T -> int)
    requires SortedBy(s, key)
    ensures SortedBy(Insert(s, x, key), key)
    decreases |s|
  {
    if s == [] || key(s[|s| - 1]) <= key(x) {
    } else {
      var init := s[..|s| - 1];
      var last := s[|s| - 1];
      InsertSorted(init, x, key);
      var r := Insert(init, x, key);
      forall k | 0 <= k < |r| ensures key(r[k]) <= key(last) {
        assert r[k] in multiset(r);
        assert r[k] in multiset(init) + multiset{x};
        if r[k] != x {
          assert r[k] in init;
        }
      }
    }
  }

  /** The sort's result is ordered by the key. */
  lemma {:induction false} SortBySorted<T>(s: seq<T>, key: T -> int)
    ensures SortedBy(SortBy(s, key), key)
    decreases |s|
  {
    if s != [] {
      SortBySorted(s[..|s| - 1], key);
      InsertSorted(SortBy(s[..|s| - 1], key), s[|s| - 1], key);
    }
  }

  /** Sorting a list that is already in key order leaves it exactly as it is (stability). */
  lemma {:induction false} SortByOfSorted<T>(s: seq<T>, key: T -> int)
    requires SortedBy(s, key)
    ensures SortBy(s, key) == s
    decreases |s|
  {
    if s != [] {
      var init := s[..|s| - 1];
      var last := s[|s| - 1];
      SortedInit(s, key);
      SortByOfSorted(init, key);
      InsertAtEnd(init, last, key);
      assert s == init + [last];
    }
  }

  /** Dropping the last element keeps a list sorted, and that element's key is the largest. */
  lemma SortedInit<T>(s: seq<T>, key: T -> int)
    requires SortedBy(s, key) && s != []
    ensures SortedBy(s[..|s| - 1], key)
    ensures |s| > 1 ==> key(s[|s| - 2]) <= key(s[|s| - 1])
  {
    var init := s[..|s| - 1];
    forall i, j | 0 <= i < j < |init| ensures key(init[i]) <= key(init[j]) {
      assert init[i] == s[i] && init[j] == s[j];
    }
  }

  /** An element whose key is at least the last one's is inserted at the end. */
  lemma InsertAtEnd<T>(s: seq<T>, x: T, key: T -> int)
    requires s == [] || key(s[|s| - 1]) <= key(x)
    ensures Insert(s, x, key) == s + [x]
  {
  }

  /** Sorting a sorted list with one element appended is inserting that element. */
  lemma SortByAppend<T>(s: seq<T>, x: T, key: T -> int)
    requires SortedBy(s, key)
    ensures SortBy(s + [x], key) == Insert(s, x, key)
  {
    assert (s + [x])[..|s|] == s;
    SortByOfSorted(s, key);
  }

  /** `[x for x in s if key(x) < t]`. */
  function Below<T>(s: seq<T>, key: T -> int, t: int): (r: seq<T>)
    ensures |r| <= |s|
    ensures forall i :: 0 <= i < |r| ==> key(r[i]) < t
  {
    if s == [] then []
    else if key(s[0]) < t then [s[0]] + Below(s[1..], key, t)
    else Below(s[1..], key, t)
  }

  /** `[x for x in s if key(x) >= t]`. */
  function AtLeast<T>(s: seq<T>, key: T -> int, t: int): (r: seq<T>)
    ensures |r| <= |s|
    ensures forall i :: 0 <= i < |r| ==> key(r[i]) >= t
  {
    if s == [] then []
    else if key(s[0]) >= t then [s[0]] + AtLeast(s[1..], key, t)
    else AtLeast(s[1..], key, t)
  }

  /** The two comprehensions partition the list: together they hold every element once. */
  lemma {:induction false} SplitPartition<T>(s: seq<T>, key: T -> int, t: int)
    ensures multiset(Below(s, key, t)) + multiset(AtLeast(s, key, t)) == multiset(s)
    ensures |Below(s, key, t)| + |AtLeast(s, key, t)| == |s|
  {
    if s != [] {
      SplitPartition(s[1..], key, t);
      assert s == [s[0]] + s[1..];
    }
  }

  /** When nothing lies below the threshold the list is kept whole. */
  lemma {:induction false} AtLeastAll<T>(s: seq<T>, key: T -> int, t: int)
    requires Below(s, key, t) == []
    ensures AtLeast(s, key, t) == s
  {
    if s != [] {
      AtLeastAll(s[1..], key, t);
      assert s == [s[0]] + s[1..];
    }
  }

  /** Filtering distributes over concatenation: both comprehensions keep the original order. */
  lemma {:induction false} SplitAppend<T>(s: seq<T>, u: seq<T>, key: T -> int, t: int)
    ensures Below(s + u, key, t) == Below(s, key, t) + Below(u, key, t)
    ensures AtLeast(s + u, key, t) == AtLeast(s, key, t) + AtLeast(u, key, t)
  {
    if s != [] {
      SplitAppend(s[1..], u, key, t);
      assert (s + u)[1..] == s[1..] + u;
    } else {
      assert s + u == u;
    }
  }

  /** The kept part of a sorted list is still sorted. */
  lemma {:induction false} AtLeastSorted<T>(s: seq<T>, key: T -> int, t: int)
    requires SortedBy(s, key)
    ensures SortedBy(AtLeast(s, key, t), key)
  {
    if s != [] {
      AtLeastSorted(s[1..], key, t);
      var rest := AtLeast(s[1..], key, t);
      AtLeastMembers(s[1..], key, t);
      forall x | x in rest ensures key(s[0]) <= key(x) {
        var j :| 0 <= j < |s[1..]| && s[1..][j] == x;
        assert s[j + 1] == x;
      }
    }
  }

  lemma {:induction false} AtLeastMembers<T>(s: seq<T>, key: T -> int, t: int)
    ensures forall x :: x in AtLeast(s, key, t) ==> x in s
  {
    if s != [] {
      AtLeastMembers(s[1..], key, t);
    }
  }

  /** `max(key(x) for x in s)`. */
  function MaxKey<T>(s: seq<T>, key: T -> int): (m: int)
    requires s != []
    ensures forall i :: 0 <= i < |s| ==> key(s[i]) <= m
    ensures exists i :: 0 <= i < |s| && key(s[i]) == m
  {
    if |s| == 1 then key(s[0])
    else
      var rest := MaxKey(s[1..], key);
      assert forall i :: 1 <= i < |s| ==> s[i] == s[1..][i - 1];
      if key(s[0]) >= rest then key(s[0]) else rest
  }

  /** `list.remove(x)`: drops the first element equal to `x`. */
  function RemoveFirst<T(==)>(s: seq<T>, x: T): (r: seq<T>)
    ensures x in s ==> |r| == |s| - 1
    ensures x !in s ==> r == s
  {
    if s == [] then []
    else if s[0] == x then s[1..]
    else [s[0]] + RemoveFirst(s[1..], x)
  }

  lemma {:induction false} RemoveFirstAt<T>(s: seq<T>, i: nat)
    requires i < |s|
    requires forall k :: 0 <= k < i ==> s[k] != s[i]
    ensures RemoveFirst(s, s[i]) == s[..i] + s[i + 1..]
  {
    if i > 0 {
      var tail := s[1..];
      assert tail[i - 1] == s[i];
      RemoveFirstAt(tail, i - 1);
      assert s[..i] == [s[0]] + tail[..i - 1];
      assert s[i + 1..] == tail[i..];
    }
  }

  /** The position of the first element whose key is `v`. */
  function FirstWith<T>(s: seq<T>, key: T -> int, v: int): (r: Option<nat>)
    ensures r.Some? ==> r.value < |s| && key(s[r.value]) == v
    ensures r.Some? ==> forall k :: 0 <= k < r.value ==> key(s[k]) != v
    ensures r.None? ==> forall k :: 0 <= k < |s| ==> key(s[k]) != v
  {
    if s == [] then None
    else if key(s[0]) == v then Some(0)
    else match FirstWith(s[1..], key, v)
      case None => None
      case Some(i) => Some(i + 1)
  }

  /** Removing one element keeps a sorted list sorted. */
  lemma RemoveAtSorted<T>(s: seq<T>, key: T -> int, i: nat)
    requires i < |s| && SortedBy(s, key)
    ensures SortedBy(s[..i] + s[i + 1..], key)
  {
    var r := s[..i] + s[i + 1..];
    forall a, b | 0 <= a < b < |r| ensures key(r[a]) <= key(r[b]) {
      var a' := if a < i then a else a + 1;
      var b' := if b < i then b else b + 1;
      assert r[a] == s[a'] && r[b] == s[b'];
    }
  }

  /** `f` applied to each element, in order. */
  function MapSeq<T, U>(s: seq<T>, f: T -> U): (r: seq<U>)
    ensures |r| == |s| && forall i :: 0 <= i < |s| ==> r[i] == f(s[i])
  {
    if s == [] then [] else [f(s[0])] + MapSeq(s[1..], f)
  }
  /** Mapping one more element of a prefix adds that element's image. */
  lemma MapSeqTake<T, U>(s: seq<T>, i: nat, f: T -> U)
    requires i < |s|
    ensures MapSeq(s[..i + 1], f) == MapSeq(s[..i], f) + [f(s[i])]
  {
    assert s[..i + 1] == s[..i] + [s[i]];
    MapSeqAppend(s[..i], s[i], f);
  }

  /** Mapping a sequence with one more element at the end adds that element's image. */
  lemma {:induction false} MapSeqAppend<T, U>(s: seq<T>, x: T, f: T -> U)
    ensures MapSeq(s + [x], f) == MapSeq(s, f) + [f(x)]
  {
    if s != [] {
      assert (s + [x])[1..] == s[1..] + [x];
      MapSeqAppend(s[1..], x, f);
    }
  }


  /** The present results of `f` over `s`, in order: a loop that emits at most one item per
      element. */
  function Collect<T, U>(s: seq<T>, f: T -> Option<U>): (r: seq<U>)
    ensures |r| <= |s|
  {
    if s == [] then []
    else (if f(s[0]).Some? then [f(s[0]).value] else []) + Collect(s[1..], f)
  }

  lemma {:induction false} CollectEmpty<T, U>(s: seq<T>, f: T -> Option<U>)
    ensures Collect(s, f) == [] <==> forall i :: 0 <= i < |s| ==> f(s[i]).None?
  {
    if s != [] {
      CollectEmpty(s[1..], f);
      assert forall i :: 1 <= i < |s| ==> s[i] == s[1..][i - 1];
    }
  }

  lemma {:induction false} CollectAppend<T, U>(a: seq<T>, b: seq<T>, f: T -> Option<U>)
    ensures Collect(a + b, f) == Collect(a, f) + Collect(b, f)
  {
    if a == [] {
      assert a + b == b;
    } else {
      CollectAppend(a[1..], b, f);
      assert (a + b)[1..] == a[1..] + b;
      assert (a + b)[0] == a[0];
      var h := if f(a[0]).Some? then [f(a[0]).value] else [];
      AppendAssoc(h, Collect(a[1..], f), Collect(b, f));
    }
  }

  /** One more element adds its result, if any, at the end. */
  lemma CollectStep<T, U>(s: seq<T>, i: nat, f: T -> Option<U>)
    requires i < |s|
    ensures Collect(s[..i + 1], f) == Collect(s[..i], f) + (if f(s[i]).Some? then [f(s[i]).value] else [])
  {
    assert s[..i + 1] == s[..i] + [s[i]];
    CollectAppend(s[..i], [s[i]], f);
    assert [s[i]][1..] == [];
    AppendEmpty(if f(s[i]).Some? then [f(s[i]).value] else []);
  }

  lemma {:induction false} FirstWithAt<T>(s: seq<T>, key: T -> int, i: nat)
    requires i < |s| && forall k :: 0 <= k < i ==> key(s[k]) != key(s[i])
    ensures FirstWith(s, key, key(s[i])) == Some(i)
  {
    if i > 0 {
      assert s[1..][i - 1] == s[i];
      FirstWithAt(s[1..], key, i - 1);
    }
  }
}
