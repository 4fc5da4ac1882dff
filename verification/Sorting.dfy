/** The stable descending sort behind every ranking, and Python's prefix slice. */
module Sorting {
  import opened Text

  // The first k elements; a negative k drops that many at the end.
  function Prefix<T>(xs: seq<T>, k: int): (r: seq<T>)
    ensures r <= xs
    ensures k >= 0 ==> |r| == if |xs| < k then |xs| else k
  {
    if k >= |xs| then xs else if k >= 0 then xs[..k] else if -k >= |xs| then [] else xs[..|xs| + k]
  }

  // Places an element before the first one whose key is not larger.
  function Insert<T>(x: T, sorted: seq<T>, key: T -> real): seq<T> {
    if sorted == [] || key(sorted[0]) <= key(x) then [x] + sorted
    else [sorted[0]] + Insert(x, sorted[1..], key)
  }

  // Descending, with equal keys in their original order.
  function SortDescending<T>(xs: seq<T>, key: T -> real): seq<T> {
    if xs == [] then [] else Insert(xs[0], SortDescending(xs[1..], key), key)
  }

  predicate Descending<T>(xs: seq<T>, key: T -> real) {
    forall i, j :: 0 <= i < j < |xs| ==> key(xs[i]) >= key(xs[j])
  }

  // The elements with one given key, in order.
  function WithKey<T>(xs: seq<T>, key: T -> real, k: real): seq<T> {
    if xs == [] then []
    else if key(xs[0]) == k then [xs[0]] + WithKey(xs[1..], key, k)
    else WithKey(xs[1..], key, k)
  }

  // Elements with equal keys come in the same order in both.
  ghost predicate SameTies<T>(xs: seq<T>, ys: seq<T>, key: T -> real) {
    forall k: real :: WithKey(xs, key, k) == WithKey(ys, key, k)
  }

  predicate Distinct<T(==)>(xs: seq<T>) {
    forall i, j :: 0 <= i < j < |xs| ==> xs[i] != xs[j]
  }

  // The distinct elements, in the order of their first occurrence.
  function FirstSeen<T(==,!new)>(xs: seq<T>): (r: seq<T>)
    ensures forall x :: x in r <==> x in xs
    ensures Distinct(r)
  {
    if xs == [] then []
    else
      var rest, last := FirstSeen(xs[..|xs| - 1]), xs[|xs| - 1];
      assert xs == xs[..|xs| - 1] + [last];
      if last in rest then rest else rest + [last]
  }

  lemma {:induction false} InsertKeeps<T>(x: T, sorted: seq<T>, key: T -> real)
    ensures multiset(Insert(x, sorted, key)) == multiset{x} + multiset(sorted)
  {
    if sorted == [] || key(sorted[0]) <= key(x) {
    } else {
      InsertKeeps(x, sorted[1..], key);
      assert sorted == [sorted[0]] + sorted[1..];
    }
  }

  lemma {:induction false} InsertOrders<T>(x: T, sorted: seq<T>, key: T -> real)
    requires Descending(sorted, key)
    ensures Descending(Insert(x, sorted, key), key)
  {
    if sorted == [] || key(sorted[0]) <= key(x) {
    } else {
      InsertOrders(x, sorted[1..], key);
      InsertKeeps(x, sorted[1..], key);
      var rest := Insert(x, sorted[1..], key);
      forall i | 0 <= i < |rest| ensures key(sorted[0]) >= key(rest[i]) {
        assert rest[i] in multiset(rest);
        assert rest[i] == x || rest[i] in sorted[1..];
      }
    }
  }

  // Sorting yields the same elements in descending order.
  lemma {:induction false} SortSorts<T>(xs: seq<T>, key: T -> real)
    ensures Descending(SortDescending(xs, key), key)
    ensures multiset(SortDescending(xs, key)) == multiset(xs)
    ensures |SortDescending(xs, key)| == |xs|
  {
    if xs == [] {
    } else {
      SortSorts(xs[1..], key);
      InsertOrders(xs[0], SortDescending(xs[1..], key), key);
      InsertKeeps(xs[0], SortDescending(xs[1..], key), key);
      assert xs == [xs[0]] + xs[1..];
      assert |multiset(SortDescending(xs, key))| == |multiset(xs)|;
    }
  }

  lemma {:induction false} InsertIsStable<T>(x: T, sorted: seq<T>, key: T -> real, k: real)
    ensures WithKey(Insert(x, sorted, key), key, k)
         == if key(x) == k then [x] + WithKey(sorted, key, k) else WithKey(sorted, key, k)
  {
    if sorted == [] || key(sorted[0]) <= key(x) {
      assert ([x] + sorted)[1..] == sorted;
    } else {
      InsertIsStable(x, sorted[1..], key, k);
      assert Insert(x, sorted, key)[1..] == Insert(x, sorted[1..], key);
    }
  }

  // Elements with equal keys keep their order.
  lemma {:induction false} SortIsStable<T>(xs: seq<T>, key: T -> real, k: real)
    ensures WithKey(SortDescending(xs, key), key, k) == WithKey(xs, key, k)
  {
    if xs == [] {
    } else {
      SortIsStable(xs[1..], key, k);
      InsertIsStable(xs[0], SortDescending(xs[1..], key), key, k);
    }
  }

  function Map<T, U>(xs: seq<T>, f: T -> U): (ys: seq<U>)
    ensures |ys| == |xs| && forall i :: 0 <= i < |xs| ==> ys[i] == f(xs[i])
  {
    seq(|xs|, i requires 0 <= i < |xs| => f(xs[i]))
  }

  lemma {:induction false} InsertMap<T, U>(x: T, sorted: seq<T>, f: T -> U, key: T -> real, keyOf: U -> real)
    requires keyOf(f(x)) == key(x) && forall i :: 0 <= i < |sorted| ==> keyOf(f(sorted[i])) == key(sorted[i])
    ensures Insert(f(x), Map(sorted, f), keyOf) == Map(Insert(x, sorted, key), f)
  {
    if sorted == [] || key(sorted[0]) <= key(x) {
    } else {
      InsertMap(x, sorted[1..], f, key, keyOf);
      assert Map(sorted, f)[1..] == Map(sorted[1..], f);
    }
  }

  // Sorting decorated elements is decorating sorted ones, when the decoration keeps every key.
  lemma {:induction false} SortMap<T, U>(xs: seq<T>, f: T -> U, key: T -> real, keyOf: U -> real)
    requires forall i :: 0 <= i < |xs| ==> keyOf(f(xs[i])) == key(xs[i])
    ensures SortDescending(Map(xs, f), keyOf) == Map(SortDescending(xs, key), f)
  {
    if xs == [] {
    } else {
      SortMap(xs[1..], f, key, keyOf);
      SortSorts(xs[1..], key);
      var sorted := SortDescending(xs[1..], key);
      forall i | 0 <= i < |sorted| ensures keyOf(f(sorted[i])) == key(sorted[i]) {
        assert sorted[i] in multiset(sorted);
        assert sorted[i] in xs[1..];
      }
      InsertMap(xs[0], sorted, f, key, keyOf);
      assert Map(xs, f)[1..] == Map(xs[1..], f);
    }
  }

  lemma {:induction false} DistinctCounts<T>(xs: seq<T>)
    ensures Distinct(xs) <==> forall x :: multiset(xs)[x] <= 1
  {
    if xs == [] {
    } else {
      var rest, last := xs[..|xs| - 1], xs[|xs| - 1];
      DistinctCounts(rest);
      assert xs == rest + [last];
      assert multiset(xs)[last] == multiset(rest)[last] + 1;
      if Distinct(xs) {
        assert last !in rest;
      }
      if forall x :: multiset(xs)[x] <= 1 {
        assert forall x :: multiset(rest)[x] <= multiset(xs)[x];
        assert last !in multiset(rest);
      }
    }
  }

  lemma DistinctByMultiset<T>(xs: seq<T>, ys: seq<T>)
    requires Distinct(xs) && multiset(xs) == multiset(ys)
    ensures Distinct(ys)
  {
    DistinctCounts(xs);
    DistinctCounts(ys);
  }

  lemma {:induction false} MapKeepsMultiset<T, U>(xs: seq<T>, ys: seq<T>, f: T -> U)
    requires multiset(xs) == multiset(ys)
    ensures multiset(Map(xs, f)) == multiset(Map(ys, f))
    decreases |xs|
  {
    if xs == [] {
      assert |ys| == |multiset(ys)|;
    } else {
      var i := WithoutLast(xs, ys);
      var x, less := xs[|xs| - 1], ys[..i] + ys[i + 1..];
      MapKeepsMultiset(xs[..|xs| - 1], less, f);
      assert Map(xs, f) == Map(xs[..|xs| - 1], f) + [f(x)];
      assert Map(ys, f) == Map(ys[..i], f) + [f(x)] + Map(ys[i + 1..], f);
      assert Map(less, f) == Map(ys[..i], f) + Map(ys[i + 1..], f);
    }
  }

  // The place in a permutation of the last element, and what is left without it.
  lemma WithoutLast<T>(xs: seq<T>, ys: seq<T>) returns (i: nat)
    requires xs != [] && multiset(xs) == multiset(ys)
    ensures i < |ys| && ys[i] == xs[|xs| - 1]
    ensures multiset(xs[..|xs| - 1]) == multiset(ys[..i] + ys[i + 1..])
  {
    var last := xs[|xs| - 1];
    assert xs == xs[..|xs| - 1] + [last];
    assert last in multiset(ys);
    i :| 0 <= i < |ys| && ys[i] == last;
    assert ys == ys[..i] + [last] + ys[i + 1..];
    assert multiset(ys[..i] + ys[i + 1..]) == multiset(ys) - multiset{last};
    assert multiset(xs[..|xs| - 1]) == multiset(xs) - multiset{last};
  }

  lemma {:induction false} FirstSeenHead<T(!new)>(xs: seq<T>)
    requires xs != []
    ensures FirstSeen(xs) != [] && FirstSeen(xs)[0] == xs[0]
  {
    if |xs| > 1 {
      FirstSeenHead(xs[..|xs| - 1]);
    } else {
      assert FirstSeen(xs[..0]) == [];
    }
  }

  // In a stable descending order, the first element with the greatest key comes first.
  lemma GreatestFirst<T(!new)>(xs: seq<T>, key: T -> real)
    requires xs != [] && forall i :: 0 <= i < |xs| ==> key(xs[i]) <= key(xs[0])
    ensures SortDescending(xs, key) != [] && SortDescending(xs, key)[0] == xs[0]
  {
    var sorted := SortDescending(xs, key);
    SortSorts(xs, key);
    assert xs[0] in multiset(sorted);
    var i :| 0 <= i < |sorted| && sorted[i] == xs[0];
    assert sorted[0] in multiset(xs);
    var j :| 0 <= j < |xs| && xs[j] == sorted[0];
    assert key(sorted[0]) == key(xs[0]);
    SortIsStable(xs, key, key(xs[0]));
  }

  lemma {:induction false} WithKeyConcat<T>(a: seq<T>, b: seq<T>, key: T -> real, k: real)
    ensures WithKey(a + b, key, k) == WithKey(a, key, k) + WithKey(b, key, k)
  {
    if a == [] {
      assert a + b == b;
    } else {
      WithKeyConcat(a[1..], b, key, k);
      assert (a + b)[1..] == a[1..] + b;
    }
  }

  lemma {:induction false} WithKeyAll<T>(xs: seq<T>, key: T -> real, k: real)
    requires forall i :: 0 <= i < |xs| ==> key(xs[i]) == k
    ensures WithKey(xs, key, k) == xs
  {
    if xs == [] {
    } else {
      WithKeyAll(xs[1..], key, k);
    }
  }

  lemma {:induction false} WithKeyNone<T>(xs: seq<T>, key: T -> real, k: real)
    requires forall i :: 0 <= i < |xs| ==> key(xs[i]) != k
    ensures WithKey(xs, key, k) == []
  {
    if xs == [] {
    } else {
      WithKeyNone(xs[1..], key, k);
    }
  }

  lemma {:induction false} WithKeyHas<T>(xs: seq<T>, key: T -> real, k: real)
    ensures forall i :: 0 <= i < |WithKey(xs, key, k)| ==> key(WithKey(xs, key, k)[i]) == k
  {
    if xs == [] {
    } else {
      WithKeyHas(xs[1..], key, k);
    }
  }

  lemma {:induction false} InsertBehind<T>(x: T, front: seq<T>, back: seq<T>, key: T -> real)
    requires forall i :: 0 <= i < |front| ==> key(front[i]) > key(x)
    requires back != [] ==> key(back[0]) <= key(x)
    ensures Insert(x, front + back, key) == front + ([x] + back)
  {
    if front == [] {
      assert front + back == back && front + ([x] + back) == [x] + back;
    } else {
      InsertBehind(x, front[1..], back, key);
      assert (front + back)[1..] == front[1..] + back;
      Associate([front[0]], front[1..], [x] + back);
      assert [front[0]] + front[1..] == front;
    }
  }

  // The elements with the greater key in order, then those with the smaller one.
  lemma {:induction false} SortTwoKeys<T>(xs: seq<T>, key: T -> real, high: real, low: real)
    requires high > low && forall i :: 0 <= i < |xs| ==> key(xs[i]) == high || key(xs[i]) == low
    ensures SortDescending(xs, key) == WithKey(xs, key, high) + WithKey(xs, key, low)
  {
    if xs == [] {
    } else {
      var x, front, back := xs[0], WithKey(xs[1..], key, high), WithKey(xs[1..], key, low);
      SortTwoKeys(xs[1..], key, high, low);
      WithKeyHas(xs[1..], key, high);
      WithKeyHas(xs[1..], key, low);
      if key(x) == high {
        InsertBehind(x, [], front + back, key);
        assert [] + (front + back) == front + back;
        Associate([x], front, back);
        assert [] + ([x] + (front + back)) == [x] + (front + back);
      } else {
        InsertBehind(x, front, back, key);
      }
    }
  }
}
