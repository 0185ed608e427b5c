/** The in-memory replacement for the query engine: filters, counts, order and paging. */
module Seqs {
  import opened Wrappers

  /** The elements of `s` that satisfy `p`, in their order in `s`. */
  function Filter<T>(s: seq<T>, p: T -> bool): (r: seq<T>)
    ensures |r| <= |s|
    ensures forall i :: 0 <= i < |r| ==> p(r[i])
    ensures forall i :: 0 <= i < |r| ==> r[i] in s
    ensures forall i :: 0 <= i < |s| && p(s[i]) ==> s[i] in r
    decreases |s|
  {
    if |s| == 0 then [] else (if p(s[0]) then [s[0]] else []) + Filter(s[1..], p)
  }

  /** Two filters that agree on every element of `s` keep the same elements. */
  lemma {:induction false} FilterCongruent<T>(s: seq<T>, p: T -> bool, q: T -> bool)
    requires forall i :: 0 <= i < |s| ==> p(s[i]) == q(s[i])
    ensures Filter(s, p) == Filter(s, q)
    decreases |s|
  {
    if |s| > 0 {
      FilterCongruent(s[1..], p, q);
    }
  }

  /** Filtering distributes over concatenation, so it keeps the relative order of what it keeps. */
  lemma {:induction false} FilterAppend<T>(a: seq<T>, b: seq<T>, p: T -> bool)
    ensures Filter(a + b, p) == Filter(a, p) + Filter(b, p)
    decreases |a|
  {
    if |a| > 0 {
      assert (a + b)[1..] == a[1..] + b;
      FilterAppend(a[1..], b, p);
    } else {
      assert a + b == b;
    }
  }

  /** Filtering keeps everything exactly when every element satisfies the predicate. */
  lemma {:induction false} FilterAll<T>(s: seq<T>, p: T -> bool)
    requires forall i :: 0 <= i < |s| ==> p(s[i])
    ensures Filter(s, p) == s
    decreases |s|
  {
    if |s| > 0 {
      FilterAll(s[1..], p);
    }
  }

  /** `count({ where })`. */
  function Count<T>(s: seq<T>, p: T -> bool): nat {
    |Filter(s, p)|
  }

  /** A stronger condition never counts more. */
  lemma {:induction false} CountMonotone<T>(s: seq<T>, p: T -> bool, q: T -> bool)
    requires forall x :: q(x) ==> p(x)
    ensures Count(s, q) <= Count(s, p)
    decreases |s|
  {
    if |s| > 0 {
      CountMonotone(s[1..], p, q);
    }
  }

  function Reverse<T>(s: seq<T>): (r: seq<T>)
    ensures |r| == |s|
    ensures forall i :: 0 <= i < |s| ==> r[i] == s[|s| - 1 - i]
    decreases |s|
  {
    if |s| == 0 then [] else Reverse(s[1..]) + [s[0]]
  }

  /** `skip: skip, take: take`. */
  function Page<T>(s: seq<T>, skip: nat, take: nat): (r: seq<T>)
    ensures |r| == if skip >= |s| then 0 else if take <= |s| - skip then take else |s| - skip
    ensures forall i :: 0 <= i < |r| ==> r[i] == s[skip + i]
  {
    var d := if skip <= |s| then s[skip..] else [];
    if take <= |d| then d[..take] else d
  }

  /** `Math.ceil(total / limit)` for a positive limit. */
  function CeilDiv(total: nat, limit: nat): (r: nat)
    requires limit >= 1
    ensures (r - 1) * limit < total <= r * limit || (total == 0 && r == 0)
  {
    (total + limit - 1) / limit
  }

  /** A list answer: the rows of the page and the `pagination` block. */
  datatype Listing<T> = Listing(data: seq<T>, page: nat, limit: nat, total: nat, totalPages: nat)

  /**
   * `findMany({ where, skip: (page - 1) * limit, take: limit, orderBy: { createdAt: 'desc' } })`
   * beside `count({ where })`, for the rows matching `where` in insertion
   * order: newest first, the page's slice, the count and `Math.ceil(total / limit)`.
   */
  function ListPage<T>(matching: seq<T>, page: nat, limit: nat): (l: Listing<T>)
    requires page >= 1 && limit >= 1
    ensures l.page == page && l.limit == limit && l.total == |matching|
    ensures |l.data| <= limit
    ensures forall i :: 0 <= i < |l.data| ==>
      Skip(page, limit) + i < |matching| && l.data[i] == matching[|matching| - 1 - (Skip(page, limit) + i)]
  {
    Listing(Page(Reverse(matching), Skip(page, limit), limit), page, limit, |matching|, CeilDiv(|matching|, limit))
  }

  /** `skip = (page - 1) * limit`. */
  function Skip(page: nat, limit: nat): nat
    requires page >= 1
  {
    (page - 1) * limit
  }

  /** Every listed row is a matching row. */
  lemma ListedRowsMatch<T>(matching: seq<T>, page: nat, limit: nat)
    requires page >= 1 && limit >= 1
    ensures forall i :: 0 <= i < |ListPage(matching, page, limit).data| ==> ListPage(matching, page, limit).data[i] in matching
  {
  }

  /** Every listed row of a filtered table satisfies the filter. */
  lemma ListedSatisfy<T>(s: seq<T>, p: T -> bool, page: nat, limit: nat)
    requires page >= 1 && limit >= 1
    ensures forall i :: 0 <= i < |ListPage(Filter(s, p), page, limit).data| ==> p(ListPage(Filter(s, p), page, limit).data[i])
  {
    var m := Filter(s, p);
    var l := ListPage(m, page, limit);
    forall i | 0 <= i < |l.data| ensures p(l.data[i]) {
      assert l.data[i] == m[|m| - 1 - (Skip(page, limit) + i)];
    }
  }

  /** A page has rows exactly when its number is at most `totalPages`. */
  lemma ListPageNonEmptyIff<T>(matching: seq<T>, page: nat, limit: nat)
    requires page >= 1 && limit >= 1
    ensures var l := ListPage(matching, page, limit);
      |l.data| > 0 <==> l.page <= l.totalPages
  {
    var n := |matching|;
    var c := CeilDiv(n, limit);
    assert ListPage(matching, page, limit).totalPages == c;
    assert Skip(page, limit) == (page - 1) * limit;
    if page <= c {
      MulMonotone(page - 1, c - 1, limit);
    } else {
      MulMonotone(c, page - 1, limit);
    }
  }

  lemma MulMonotone(a: nat, b: nat, m: nat)
    requires a <= b
    ensures a * m <= b * m
  {
    assert b * m == a * m + (b - a) * m;
  }

  /** `findFirst`/`findUnique`: the position of the first element satisfying `p`. */
  function FirstIndex<T>(s: seq<T>, p: T -> bool): (r: Option<nat>)
    ensures r.Some? ==> r.value < |s| && p(s[r.value])
    ensures r.Some? ==> forall j :: 0 <= j < r.value ==> !p(s[j])
    ensures r.None? ==> forall j :: 0 <= j < |s| ==> !p(s[j])
    decreases |s|
  {
    if |s| == 0 then None
    else if p(s[0]) then Some(0)
    else match FirstIndex(s[1..], p)
      case None => None
      case Some(k) => Some(k + 1)
  }

  /** `r` is `s` with some elements left out and the rest in their original order. */
  predicate Subsequence<T(==)>(r: seq<T>, s: seq<T>)
    decreases |s|
  {
    if |r| == 0 then true
    else if |s| == 0 then false
    else if r[0] == s[0] then Subsequence(r[1..], s[1..])
    else Subsequence(r, s[1..])
  }

  lemma {:induction false} FilterSubsequence<T>(s: seq<T>, p: T -> bool)
    ensures Subsequence(Filter(s, p), s)
    decreases |s|
  {
    if |s| > 0 {
      FilterSubsequence(s[1..], p);
      if p(s[0]) {
        assert Filter(s, p) == [s[0]] + Filter(s[1..], p);
        assert Filter(s, p)[1..] == Filter(s[1..], p);
      } else {
        assert Filter(s, p) == Filter(s[1..], p);
      }
    }
  }

  /** What a filter keeps and what its negation keeps add up to the whole. */
  lemma {:induction false} CountPartition<T>(s: seq<T>, p: T -> bool, q: T -> bool)
    requires forall x :: q(x) == !p(x)
    ensures Count(s, p) + Count(s, q) == |s|
    decreases |s|
  {
    if |s| > 0 {
      CountPartition(s[1..], p, q);
    }
  }

  predicate NonIncreasing<T>(s: seq<T>, key: T -> int) {
    forall i, j :: 0 <= i < j < |s| ==> key(s[i]) >= key(s[j])
  }

  predicate NonDecreasing<T>(s: seq<T>, key: T -> int) {
    forall i, j :: 0 <= i < j < |s| ==> key(s[i]) <= key(s[j])
  }

  lemma ReverseOrder<T>(s: seq<T>, key: T -> int)
    requires NonDecreasing(s, key)
    ensures NonIncreasing(Reverse(s), key)
  {
    var r := Reverse(s);
    forall i, j | 0 <= i < j < |r| ensures key(r[i]) >= key(r[j]) {
      assert r[i] == s[|s| - 1 - i] && r[j] == s[|s| - 1 - j];
    }
  }

  lemma {:induction false} FilterKeepsOrder<T>(s: seq<T>, p: T -> bool, key: T -> int)
    requires NonIncreasing(s, key)
    ensures NonIncreasing(Filter(s, p), key)
    decreases |s|
  {
    if |s| > 0 {
      FilterKeepsOrder(s[1..], p, key);
      var rest := Filter(s[1..], p);
      forall j | 0 <= j < |rest| ensures key(s[0]) >= key(rest[j]) {
        var k :| 0 <= k < |s[1..]| && s[1..][k] == rest[j];
        assert s[k + 1] == rest[j];
      }
      if p(s[0]) {
        ConsNonIncreasing(s[0], rest, key);
        assert Filter(s, p) == [s[0]] + rest;
      } else {
        assert Filter(s, p) == rest;
      }
    }
  }

  lemma ConsNonIncreasing<T>(x: T, rest: seq<T>, key: T -> int)
    requires NonIncreasing(rest, key) && forall j :: 0 <= j < |rest| ==> key(x) >= key(rest[j])
    ensures NonIncreasing([x] + rest, key)
  {
    var r := [x] + rest;
    forall i, j | 0 <= i < j < |r| ensures key(r[i]) >= key(r[j]) {
      assert r[j] == rest[j - 1];
      if i > 0 {
        assert r[i] == rest[i - 1];
      }
    }
  }



  lemma PageKeepsOrder<T>(s: seq<T>, skip: nat, take: nat, key: T -> int)
    requires NonIncreasing(s, key)
    ensures NonIncreasing(Page(s, skip, take), key)
  {
    var r := Page(s, skip, take);
    forall i, j | 0 <= i < j < |r| ensures key(r[i]) >= key(r[j]) {
      assert r[i] == s[skip + i] && r[j] == s[skip + j];
    }
  }

  lemma {:induction false} FilterKeepsAscending<T>(s: seq<T>, p: T -> bool, key: T -> int)
    requires NonDecreasing(s, key)
    ensures NonDecreasing(Filter(s, p), key)
    decreases |s|
  {
    if |s| > 0 {
      FilterKeepsAscending(s[1..], p, key);
      var rest := Filter(s[1..], p);
      forall j | 0 <= j < |rest| ensures key(s[0]) <= key(rest[j]) {
        var k :| 0 <= k < |s[1..]| && s[1..][k] == rest[j];
        assert s[k + 1] == rest[j];
      }
      if p(s[0]) {
        ConsNonDecreasing(s[0], rest, key);
        assert Filter(s, p) == [s[0]] + rest;
      } else {
        assert Filter(s, p) == rest;
      }
    }
  }

  lemma ConsNonDecreasing<T>(x: T, rest: seq<T>, key: T -> int)
    requires NonDecreasing(rest, key) && forall j :: 0 <= j < |rest| ==> key(x) <= key(rest[j])
    ensures NonDecreasing([x] + rest, key)
  {
    var r := [x] + rest;
    forall i, j | 0 <= i < j < |r| ensures key(r[i]) <= key(r[j]) {
      assert r[j] == rest[j - 1];
      if i > 0 {
        assert r[i] == rest[i - 1];
      }
    }
  }



  /** Filtering keeps nothing when no element satisfies the predicate. */
  lemma {:induction false} FilterNone<T>(s: seq<T>, p: T -> bool)
    requires forall i :: 0 <= i < |s| ==> !p(s[i])
    ensures Filter(s, p) == []
    decreases |s|
  {
    if |s| > 0 {
      FilterNone(s[1..], p);
    }
  }

  lemma TailNonDecreasing<T>(s: seq<T>, key: T -> int)
    requires |s| > 0 && NonDecreasing(s, key)
    ensures NonDecreasing(s[1..], key)
    ensures forall i :: 0 <= i < |s| ==> key(s[0]) <= key(s[i])
  {
    forall i, j | 0 <= i < j < |s[1..]| ensures key(s[1..][i]) <= key(s[1..][j]) {
      assert s[1..][i] == s[i + 1] && s[1..][j] == s[j + 1];
    }
  }

  /**
   * In a sequence sorted by `key`, the elements below a bound come first:
   * keeping those at or above it drops exactly as many leading elements as
   * there are below it.
   */
  lemma {:induction false} SortedThreshold<T>(s: seq<T>, key: T -> int, c: int, keep: T -> bool, drop: T -> bool)
    requires NonDecreasing(s, key)
    requires forall x :: keep(x) == (key(x) >= c)
    requires forall x :: drop(x) == (key(x) < c)
    ensures Count(s, drop) <= |s|
    ensures Filter(s, keep) == s[Count(s, drop)..]
    decreases |s|
  {
    if |s| > 0 {
      TailNonDecreasing(s, key);
      if key(s[0]) >= c {
        FilterAll(s, keep);
        FilterNone(s, drop);
        assert s[0..] == s;
      } else {
        SortedThreshold(s[1..], key, c, keep, drop);
        assert Filter(s, keep) == Filter(s[1..], keep);
        assert Filter(s, drop) == [s[0]] + Filter(s[1..], drop);
        assert s[Count(s, drop)..] == s[1..][Count(s[1..], drop)..];
      }
    }
  }

  // ---------------------------------------------------------------- unique keys

  /** No two elements share a key (a unique column). */
  predicate DistinctKeys<T, K(==)>(s: seq<T>, key: T -> K) {
    forall i, j :: 0 <= i < j < |s| ==> key(s[i]) != key(s[j])
  }

  lemma {:induction false} DistinctFilter<T, K>(s: seq<T>, p: T -> bool, key: T -> K)
    requires DistinctKeys(s, key)
    ensures DistinctKeys(Filter(s, p), key)
    decreases |s|
  {
    if |s| > 0 {
      DistinctFilter(s[1..], p, key);
      var rest := Filter(s[1..], p);
      forall j | 0 <= j < |rest| ensures key(s[0]) != key(rest[j]) {
        var k :| 0 <= k < |s[1..]| && s[1..][k] == rest[j];
        assert s[k + 1] == rest[j];
      }
      var r := Filter(s, p);
      if p(s[0]) {
        forall i, j | 0 <= i < j < |r| ensures key(r[i]) != key(r[j]) {
          assert r[j] == rest[j - 1];
          if i > 0 {
            assert r[i] == rest[i - 1];
          }
        }
      }
    }
  }

  /** Overwriting an element with one of the same key keeps the keys distinct. */
  lemma DistinctUpdate<T, K>(s: seq<T>, k: nat, x: T, key: T -> K)
    requires DistinctKeys(s, key) && k < |s| && key(x) == key(s[k])
    ensures DistinctKeys(s[k := x], key)
  {
    var r := s[k := x];
    forall i, j | 0 <= i < j < |r| ensures key(r[i]) != key(r[j]) {
      assert key(r[i]) == key(s[i]) && key(r[j]) == key(s[j]);
    }
  }

  /** Overwriting an element with one whose key no other element has keeps the keys distinct. */
  lemma DistinctReplace<T, K>(s: seq<T>, k: nat, x: T, key: T -> K)
    requires DistinctKeys(s, key) && k < |s|
    requires forall i :: 0 <= i < |s| && i != k ==> key(s[i]) != key(x)
    ensures DistinctKeys(s[k := x], key)
  {
    var r := s[k := x];
    forall i, j | 0 <= i < j < |r| ensures key(r[i]) != key(r[j]) {
      if i != k && j != k {
        assert key(r[i]) == key(s[i]) && key(r[j]) == key(s[j]);
      }
    }
  }

  lemma DistinctAppend<T, K>(s: seq<T>, x: T, key: T -> K)
    requires DistinctKeys(s, key)
    requires forall i :: 0 <= i < |s| ==> key(s[i]) != key(x)
    ensures DistinctKeys(s + [x], key)
  {
    var r := s + [x];
    forall i, j | 0 <= i < j < |r| ensures key(r[i]) != key(r[j]) {
      assert r[i] == s[i];
      if j < |s| {
        assert r[j] == s[j];
      }
    }
  }

  /** `s` without its element at `k`. */
  function RemoveAt<T>(s: seq<T>, k: nat): (r: seq<T>)
    requires k < |s|
    ensures |r| == |s| - 1
    ensures forall i :: 0 <= i < k ==> r[i] == s[i]
    ensures forall i :: k <= i < |r| ==> r[i] == s[i + 1]
  {
    s[..k] + s[k + 1..]
  }

  lemma DistinctRemoveAt<T, K>(s: seq<T>, k: nat, key: T -> K)
    requires DistinctKeys(s, key) && k < |s|
    ensures DistinctKeys(RemoveAt(s, k), key)
  {
    var r := RemoveAt(s, k);
    forall i, j | 0 <= i < j < |r| ensures key(r[i]) != key(r[j]) {
      var i' := if i < k then i else i + 1;
      var j' := if j < k then j else j + 1;
      assert r[i] == s[i'] && r[j] == s[j'];
    }
  }

  /** With distinct keys, removing the element at `k` removes its key and keeps every other element. */
  lemma RemoveAtExactly<T, K>(s: seq<T>, key: T -> K, k: nat)
    requires DistinctKeys(s, key) && k < |s|
    ensures forall i :: 0 <= i < |RemoveAt(s, k)| ==> key(RemoveAt(s, k)[i]) != key(s[k])
    ensures forall j :: 0 <= j < |s| && j != k ==> s[j] in RemoveAt(s, k)
  {
    var r := RemoveAt(s, k);
    forall i | 0 <= i < |r| ensures key(r[i]) != key(s[k]) {
      assert r[i] == s[if i < k then i else i + 1];
    }
    forall j | 0 <= j < |s| && j != k ensures s[j] in r {
      assert s[j] == r[if j < k then j else j - 1];
    }
  }

  /** With distinct keys, the only element carrying the key of `s[k]` is `s[k]`. */
  lemma DistinctKeyAt<T, K>(s: seq<T>, key: T -> K, k: nat, j: nat)
    requires DistinctKeys(s, key) && k < |s| && j < |s| && key(s[j]) == key(s[k])
    ensures j == k
  {
  }
}
