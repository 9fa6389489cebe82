/** Sequence helpers shared by the table models: row filters, column sums and counts. */
module Seqs {
  /** The rows of `s` that satisfy `p`, in their original order (a boolean-mask `.loc`). */
  function Filter<T>(s: seq<T>, p: T -> bool): (r: seq<T>)
    ensures |r| <= |s|
    ensures forall x :: x in r ==> x in s && p(x)
    ensures forall x :: x in s && p(x) ==> x in r
    decreases s
  {
    if s == [] then []
    else if p(s[0]) then [s[0]] + Filter(s[1..], p)
    else Filter(s[1..], p)
  }

  lemma {:induction false} FilterConcat<T>(a: seq<T>, b: seq<T>, p: T -> bool)
    ensures Filter(a + b, p) == Filter(a, p) + Filter(b, p)
    decreases a
  {
    if a == [] {
      assert a + b == b;
    } else {
      assert (a + b)[1..] == a[1..] + b;
      FilterConcat(a[1..], b, p);
    }
  }

  /** Sum of a real column (pandas `sum`). */
  function Sum(s: seq<real>): real
    decreases s
  {
    if s == [] then 0.0 else s[0] + Sum(s[1..])
  }

  lemma {:induction false} SumConcat(a: seq<real>, b: seq<real>)
    ensures Sum(a + b) == Sum(a) + Sum(b)
    decreases a
  {
    if a == [] {
      assert a + b == b;
    } else {
      assert (a + b)[1..] == a[1..] + b;
      SumConcat(a[1..], b);
    }
  }

  /** Sum of an integer column. */
  function SumInt(s: seq<int>): int
    decreases s
  {
    if s == [] then 0 else s[0] + SumInt(s[1..])
  }

  lemma {:induction false} SumIntConcat(a: seq<int>, b: seq<int>)
    ensures SumInt(a + b) == SumInt(a) + SumInt(b)
    decreases a
  {
    if a == [] {
      assert a + b == b;
    } else {
      assert (a + b)[1..] == a[1..] + b;
      SumIntConcat(a[1..], b);
    }
  }

  /** Number of rows satisfying `p` (a boolean column summed). */
  function Count<T>(s: seq<T>, p: T -> bool): (n: nat)
    ensures n <= |s|
    ensures n == 0 <==> forall x :: x in s ==> !p(x)
    decreases s
  {
    if s == [] then 0 else (if p(s[0]) then 1 else 0) + Count(s[1..], p)
  }

  /** The distinct rows of `s`, each kept at its first occurrence (`drop_duplicates`, `unique`). */
  function Distinct<T(==,!new)>(s: seq<T>): (r: seq<T>)
    ensures forall x :: x in r <==> x in s
    ensures forall i, j :: 0 <= i < j < |r| ==> r[i] != r[j]
  {
    DistinctAfter(s, {})
  }

  function DistinctAfter<T(==,!new)>(s: seq<T>, seen: set<T>): (r: seq<T>)
    ensures forall x :: x in r <==> x in s && x !in seen
    ensures forall i, j :: 0 <= i < j < |r| ==> r[i] != r[j]
    decreases s
  {
    if s == [] then []
    else if s[0] in seen then DistinctAfter(s[1..], seen)
    else
      var rest := DistinctAfter(s[1..], seen + {s[0]});
      assert forall x :: x in s ==> x == s[0] || x in s[1..];
      [s[0]] + rest
  }

  /** The index of the first occurrence of `x` in `s`. */
  function FirstIndex<T(==)>(s: seq<T>, x: T): (i: nat)
    requires x in s
    ensures i < |s| && s[i] == x && forall j :: 0 <= j < i ==> s[j] != x
    decreases s
  {
    if s[0] == x then 0
    else
      assert x in s[1..];
      1 + FirstIndex(s[1..], x)
  }

  /**
   * `unique()` keeps first-appearance order: a value listed before another
   * first occurs in `s` before every occurrence of the other.
   */
  lemma DistinctFirstAppearance<T(!new)>(s: seq<T>)
    ensures var r := Distinct(s);
      forall a, b :: 0 <= a < b < |r| ==>
        exists i :: 0 <= i < |s| && s[i] == r[a] && forall j :: 0 <= j < |s| && s[j] == r[b] ==> i < j
  {
    var r := Distinct(s);
    assert r == DistinctAfter(s, {});
    DistinctAfterOrder(s, {});
    forall a, b | 0 <= a < b < |r|
      ensures exists i :: 0 <= i < |s| && s[i] == r[a] && forall j :: 0 <= j < |s| && s[j] == r[b] ==> i < j
    {
      var i := FirstIndex(s, r[a]);
      var fb := FirstIndex(s, r[b]);
      assert i < fb;
      forall j | 0 <= j < |s| && s[j] == r[b] ensures i < j { }
    }
  }

  lemma {:induction false} DistinctAfterOrder<T(!new)>(s: seq<T>, seen: set<T>)
    ensures var r := DistinctAfter(s, seen);
      forall a, b :: 0 <= a < b < |r| ==> r[a] in s && r[b] in s && FirstIndex(s, r[a]) < FirstIndex(s, r[b])
    decreases s
  {
    if s != [] {
      var seen' := if s[0] in seen then seen else seen + {s[0]};
      var rest := DistinctAfter(s[1..], seen');
      DistinctAfterOrder(s[1..], seen');
      TailOrder(s, rest, seen');
      if s[0] in seen {
        assert DistinctAfter(s, seen) == rest;
      } else {
        assert DistinctAfter(s, seen) == [s[0]] + rest;
        ConsOrder(s, rest);
      }
    }
  }

  /** The tail's order carries over to `s` when the tail's values avoid `s[0]`. */
  lemma TailOrder<T(!new)>(s: seq<T>, rest: seq<T>, seen: set<T>)
    requires s != [] && s[0] in seen && rest == DistinctAfter(s[1..], seen)
    requires forall a, b :: 0 <= a < b < |rest| ==> rest[a] in s[1..] && rest[b] in s[1..] && FirstIndex(s[1..], rest[a]) < FirstIndex(s[1..], rest[b])
    ensures forall a, b :: 0 <= a < b < |rest| ==> rest[a] in s && rest[b] in s && FirstIndex(s, rest[a]) < FirstIndex(s, rest[b])
    ensures forall a :: 0 <= a < |rest| ==> rest[a] != s[0] && rest[a] in s && FirstIndex(s, rest[a]) > 0
  {
    forall a | 0 <= a < |rest|
      ensures rest[a] != s[0] && rest[a] in s && FirstIndex(s, rest[a]) == 1 + FirstIndex(s[1..], rest[a])
    {
      assert rest[a] in rest;
    }
  }

  /** Putting `s[0]` in front keeps the order. */
  lemma ConsOrder<T(!new)>(s: seq<T>, rest: seq<T>)
    requires s != []
    requires forall a, b :: 0 <= a < b < |rest| ==> rest[a] in s && rest[b] in s && FirstIndex(s, rest[a]) < FirstIndex(s, rest[b])
    requires forall a :: 0 <= a < |rest| ==> rest[a] in s && FirstIndex(s, rest[a]) > 0
    ensures var r := [s[0]] + rest;
      forall a, b :: 0 <= a < b < |r| ==> r[a] in s && r[b] in s && FirstIndex(s, r[a]) < FirstIndex(s, r[b])
  {
    var r := [s[0]] + rest;
    forall a, b | 0 <= a < b < |r|
      ensures r[a] in s && r[b] in s && FirstIndex(s, r[a]) < FirstIndex(s, r[b])
    {
      assert r[b] == rest[b - 1];
      if a > 0 {
        assert r[a] == rest[a - 1];
      }
    }
  }

  /** The key column of a table (one key per row, in row order). */
  function Keys<T, K>(s: seq<T>, key: T -> K): (r: seq<K>)
    ensures |r| == |s| && forall i :: 0 <= i < |s| ==> r[i] == key(s[i])
    decreases s
  {
    if s == [] then [] else [key(s[0])] + Keys(s[1..], key)
  }

  /** Sum of an integer column over all rows. */
  function Total<T>(s: seq<T>, v: T -> int): int
    decreases s
  {
    if s == [] then 0 else v(s[0]) + Total(s[1..], v)
  }

  /** Sum of an integer column over the rows whose key is `k` (one group of a `groupby(...).sum()`). */
  function KeySum<T, K(==)>(s: seq<T>, key: T -> K, v: T -> int, k: K): int
    decreases s
  {
    if s == [] then 0 else (if key(s[0]) == k then v(s[0]) else 0) + KeySum(s[1..], key, v, k)
  }

  /** The group sums of the listed keys added up. */
  function KeysTotal<T, K(==)>(s: seq<T>, key: T -> K, v: T -> int, keys: seq<K>): int
    decreases keys
  {
    if keys == [] then 0 else KeySum(s, key, v, keys[0]) + KeysTotal(s, key, v, keys[1..])
  }

  /** `x` counted at its key among the listed keys, 0 at every other key. */
  function Hits<K(==)>(keys: seq<K>, k: K, x: int): int
    decreases keys
  {
    if keys == [] then 0 else (if keys[0] == k then x else 0) + Hits(keys[1..], k, x)
  }

  /** Among distinct keys that include `k`, the value lands at exactly one key. */
  lemma {:induction false} HitsOnce<K>(keys: seq<K>, k: K, x: int)
    requires k in keys
    requires forall i, j :: 0 <= i < j < |keys| ==> keys[i] != keys[j]
    ensures Hits(keys, k, x) == x
    decreases keys
  {
    if keys[0] == k {
      HitsNone(keys[1..], k, x);
    } else {
      HitsOnce(keys[1..], k, x);
    }
  }

  lemma {:induction false} HitsNone<K>(keys: seq<K>, k: K, x: int)
    requires k !in keys
    ensures Hits(keys, k, x) == 0
    decreases keys
  {
    if keys != [] {
      HitsNone(keys[1..], k, x);
    }
  }

  /** Peeling the first row off every group sum at once. */
  lemma {:induction false} KeysTotalCons<T, K>(s: seq<T>, key: T -> K, v: T -> int, keys: seq<K>)
    requires s != []
    ensures KeysTotal(s, key, v, keys) == Hits(keys, key(s[0]), v(s[0])) + KeysTotal(s[1..], key, v, keys)
    decreases keys
  {
    if keys != [] {
      KeysTotalCons(s, key, v, keys[1..]);
    }
  }

  /**
   * Grouping conserves the column: over distinct keys that cover every row,
   * the group sums add up to the column's total.
   */
  lemma {:induction false} GroupedTotal<T, K>(s: seq<T>, key: T -> K, v: T -> int, keys: seq<K>)
    requires forall i :: 0 <= i < |s| ==> key(s[i]) in keys
    requires forall i, j :: 0 <= i < j < |keys| ==> keys[i] != keys[j]
    ensures KeysTotal(s, key, v, keys) == Total(s, v)
    decreases s
  {
    if s == [] {
      KeysTotalEmpty(s, key, v, keys);
    } else {
      KeysTotalCons(s, key, v, keys);
      HitsOnce(keys, key(s[0]), v(s[0]));
      GroupedTotal(s[1..], key, v, keys);
    }
  }

  lemma {:induction false} KeysTotalEmpty<T, K>(s: seq<T>, key: T -> K, v: T -> int, keys: seq<K>)
    requires s == []
    ensures KeysTotal(s, key, v, keys) == 0
    decreases keys
  {
    if keys != [] {
      KeysTotalEmpty(s, key, v, keys[1..]);
    }
  }

  /**
   * Dense rank of row `i` among the rows of its group (pandas `rank("dense")`):
   * one more than the number of distinct smaller values in the group.
   */
  function DenseRank<K(==)>(keys: seq<K>, vals: seq<int>, i: nat): (r: nat)
    requires |keys| == |vals| && i < |vals|
  {
    1 + |set j | 0 <= j < |vals| && keys[j] == keys[i] && vals[j] < vals[i] :: vals[j]|
  }

  /**
   * Within a group, the dense rank orders rows as their values do: equal
   * values share a rank, a smaller value has a smaller rank, and the smallest
   * value has rank 1.
   */
  lemma DenseRankOrder<K>(keys: seq<K>, vals: seq<int>, i: nat, j: nat)
    requires |keys| == |vals| && i < |vals| && j < |vals| && keys[i] == keys[j]
    ensures vals[j] == vals[i] ==> DenseRank(keys, vals, j) == DenseRank(keys, vals, i)
    ensures vals[j] < vals[i] ==> DenseRank(keys, vals, j) < DenseRank(keys, vals, i)
    ensures (forall m :: 0 <= m < |vals| && keys[m] == keys[i] ==> vals[i] <= vals[m]) ==> DenseRank(keys, vals, i) == 1
  {
    var below := (n: nat) requires n < |vals| => set m | 0 <= m < |vals| && keys[m] == keys[n] && vals[m] < vals[n] :: vals[m];
    if vals[j] < vals[i] {
      assert below(j) <= below(i);
      assert vals[j] in below(i) && vals[j] !in below(j);
      var a, b := below(j), below(i);
      assert b == a + (b - a) && a * (b - a) == {} && vals[j] in b - a;
      assert |b - a| >= 1;
    }
    if vals[j] == vals[i] {
      assert below(j) == below(i);
    }
    if forall m :: 0 <= m < |vals| && keys[m] == keys[i] ==> vals[i] <= vals[m] {
      assert below(i) == {};
    }
  }
}
