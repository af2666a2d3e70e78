/** pandas' `groupby(key)[col].sum()` and `sort_values(...).head(k)`, over any row type:
    group totals kept strictly ascending by key, and ranking of groups by total. */
module Grouping {
  import opened Seqs

  /** One row of a grouped sum: the group key and the summed column. */
  datatype Entry<K> = Entry(key: K, total: real)

  /** Sum of `val` over all rows. */
  function SumOf<R>(rows: seq<R>, val: R -> real): real
  {
    if rows == [] then 0.0 else val(rows[0]) + SumOf(rows[1..], val)
  }

  /** Sum of `val` over the rows whose key is `k`. */
  function SumWhere<R, K(==)>(rows: seq<R>, key: R -> K, val: R -> real, k: K): real
  {
    if rows == [] then 0.0
    else (if key(rows[0]) == k then val(rows[0]) else 0.0) + SumWhere(rows[1..], key, val, k)
  }

  function KeySet<K>(es: seq<Entry<K>>): set<K>
  {
    set e | e in es :: e.key
  }

  function RowKeys<R(==), K>(rows: seq<R>, key: R -> K): set<K>
  {
    set r | r in rows :: key(r)
  }

  ghost predicate StrictlyAscending<K>(es: seq<Entry<K>>, lt: (K, K) -> bool)
  {
    forall i, j :: 0 <= i < j < |es| ==> lt(es[i].key, es[j].key)
  }

  /** Sum of the totals of a grouped result. */
  function SumTotals<K>(es: seq<Entry<K>>): real
  {
    if es == [] then 0.0 else es[0].total + SumTotals(es[1..])
  }

  /** The total of group `k`, or 0 when there is no such group. */
  function Lookup<K(==)>(es: seq<Entry<K>>, k: K): real
  {
    if es == [] then 0.0 else if es[0].key == k then es[0].total else Lookup(es[1..], k)
  }

  /** Adds `v` to group `k` of a grouped result kept ascending by `lt`, creating the
      group in its place when it is new. */
  function AddTo<K(==)>(es: seq<Entry<K>>, k: K, v: real, lt: (K, K) -> bool): seq<Entry<K>>
  {
    if es == [] then [Entry(k, v)]
    else if es[0].key == k then [Entry(k, es[0].total + v)] + es[1..]
    else if lt(k, es[0].key) then [Entry(k, v)] + es
    else [es[0]] + AddTo(es[1..], k, v, lt)
  }

  /** Adding to a group adds `k` to the key set and keeps the other keys. */
  lemma {:induction false} AddToKeys<K>(es: seq<Entry<K>>, k: K, v: real, lt: (K, K) -> bool)
    ensures KeySet(AddTo(es, k, v, lt)) == KeySet(es) + {k}
  {
    if es != [] {
      assert es == [es[0]] + es[1..];
      KeySetCons(es[0], es[1..]);
      if es[0].key == k {
        KeySetCons(Entry(k, es[0].total + v), es[1..]);
      } else if lt(k, es[0].key) {
        KeySetCons(Entry(k, v), es);
      } else {
        AddToKeys(es[1..], k, v, lt);
        KeySetCons(es[0], AddTo(es[1..], k, v, lt));
      }
    }
  }

  lemma KeySetCons<K>(e: Entry<K>, es: seq<Entry<K>>)
    ensures KeySet([e] + es) == {e.key} + KeySet(es)
  {
    assert forall d :: d in [e] + es <==> d == e || d in es;
  }

  /** Adding to a group keeps the keys strictly ascending. */
  lemma {:induction false} AddToAscending<K(!new)>(es: seq<Entry<K>>, k: K, v: real, lt: (K, K) -> bool)
    requires IsStrictOrder(lt) && StrictlyAscending(es, lt)
    ensures StrictlyAscending(AddTo(es, k, v, lt), lt)
  {
    if es != [] && es[0].key != k && !lt(k, es[0].key) {
      AddToAscending(es[1..], k, v, lt);
      AddToKeys(es[1..], k, v, lt);
      var rest := AddTo(es[1..], k, v, lt);
      assert lt(es[0].key, k);
      forall j | 0 < j < |rest| + 1 ensures lt(es[0].key, ([es[0]] + rest)[j].key) {
        assert rest[j - 1] in rest;
        assert rest[j - 1].key in KeySet(es[1..]) + {k};
      }
    }
  }

  /** Adding `v` to group `k` changes the total of `k` by `v` and no other total. */
  lemma {:induction false} AddToLookup<K(!new)>(es: seq<Entry<K>>, k: K, v: real, lt: (K, K) -> bool, k': K)
    requires IsStrictOrder(lt) && StrictlyAscending(es, lt)
    ensures Lookup(AddTo(es, k, v, lt), k') == Lookup(es, k') + (if k' == k then v else 0.0)
  {
    if es != [] {
      if es[0].key == k {
        if k' == k {
          LookupAbsent(es[1..], k, lt, es[0].key);
        }
      } else if lt(k, es[0].key) {
        if k' == k {
          LookupAbsent(es, k, lt, k);
        }
      } else {
        AddToLookup(es[1..], k, v, lt, k');
      }
    }
  }

  /** Adding `v` to one group adds `v` to the sum of all totals. */
  lemma {:induction false} AddToSum<K>(es: seq<Entry<K>>, k: K, v: real, lt: (K, K) -> bool)
    ensures SumTotals(AddTo(es, k, v, lt)) == SumTotals(es) + v
  {
    if es != [] && es[0].key != k && !lt(k, es[0].key) {
      AddToSum(es[1..], k, v, lt);
      assert ([es[0]] + AddTo(es[1..], k, v, lt))[1..] == AddTo(es[1..], k, v, lt);
    }
  }

  /** A key at or below a bound that lies below every key of an ascending result is in
      none of its groups. */
  lemma LookupAbsent<K(!new)>(es: seq<Entry<K>>, k: K, lt: (K, K) -> bool, bound: K)
    requires IsStrictOrder(lt) && StrictlyAscending(es, lt)
    requires k == bound || lt(k, bound)
    requires forall e :: e in es ==> lt(bound, e.key)
    ensures k !in KeySet(es) && Lookup(es, k) == 0.0
  {
    NotInLookup(es, k);
  }

  lemma {:induction false} NotInLookup<K>(es: seq<Entry<K>>, k: K)
    requires k !in KeySet(es)
    ensures Lookup(es, k) == 0.0
  {
    if es != [] {
      assert es[0] in es;
      assert KeySet(es[1..]) <= KeySet(es);
      NotInLookup(es[1..], k);
    }
  }

  /** `groupby(key)[val].sum()`: one entry per distinct key, keys ascending by `lt`. */
  function GroupSum<R, K(==)>(rows: seq<R>, key: R -> K, val: R -> real, lt: (K, K) -> bool): seq<Entry<K>>
  {
    if rows == [] then []
    else AddTo(GroupSum(rows[1..], key, val, lt), key(rows[0]), val(rows[0]), lt)
  }

  /** The groups are in strictly ascending key order, so no key appears twice. */
  lemma {:induction false} GroupSumAscending<R, K(!new)>(rows: seq<R>, key: R -> K, val: R -> real, lt: (K, K) -> bool)
    requires IsStrictOrder(lt)
    ensures StrictlyAscending(GroupSum(rows, key, val, lt), lt)
  {
    if rows != [] {
      GroupSumAscending(rows[1..], key, val, lt);
      AddToAscending(GroupSum(rows[1..], key, val, lt), key(rows[0]), val(rows[0]), lt);
    }
  }

  /** There is a group for a key exactly when some row has that key. */
  lemma {:induction false} GroupSumKeys<R, K>(rows: seq<R>, key: R -> K, val: R -> real, lt: (K, K) -> bool)
    ensures KeySet(GroupSum(rows, key, val, lt)) == RowKeys(rows, key)
  {
    if rows != [] {
      GroupSumKeys(rows[1..], key, val, lt);
      AddToKeys(GroupSum(rows[1..], key, val, lt), key(rows[0]), val(rows[0]), lt);
      assert rows == [rows[0]] + rows[1..];
      assert forall r :: r in rows <==> r == rows[0] || r in rows[1..];
    }
  }

  /** The total of each key is the sum of `val` over the rows with that key. */
  lemma {:induction false} GroupSumLookup<R, K(!new)>(rows: seq<R>, key: R -> K, val: R -> real, lt: (K, K) -> bool, k: K)
    requires IsStrictOrder(lt)
    ensures Lookup(GroupSum(rows, key, val, lt), k) == SumWhere(rows, key, val, k)
  {
    if rows != [] {
      GroupSumLookup(rows[1..], key, val, lt, k);
      GroupSumAscending(rows[1..], key, val, lt);
      AddToLookup(GroupSum(rows[1..], key, val, lt), key(rows[0]), val(rows[0]), lt, k);
    }
  }

  /** The group totals add up to the sum over all rows. */
  lemma {:induction false} GroupSumTotal<R, K>(rows: seq<R>, key: R -> K, val: R -> real, lt: (K, K) -> bool)
    ensures SumTotals(GroupSum(rows, key, val, lt)) == SumOf(rows, val)
  {
    if rows != [] {
      GroupSumTotal(rows[1..], key, val, lt);
      AddToSum(GroupSum(rows[1..], key, val, lt), key(rows[0]), val(rows[0]), lt);
    }
  }

  /** In a result without repeated keys, an entry's total is the total of its key. */
  lemma {:induction false} EntryTotal<K(!new)>(es: seq<Entry<K>>, lt: (K, K) -> bool, i: nat)
    requires IsStrictOrder(lt) && StrictlyAscending(es, lt) && i < |es|
    ensures Lookup(es, es[i].key) == es[i].total
  {
    if i > 0 {
      assert lt(es[0].key, es[i].key);
      EntryTotal(es[1..], lt, i - 1);
    }
  }

  /** Everything `groupby(key)[val].sum()` promises, in one statement: keys strictly
      ascending, one group per distinct row key, each total the sum over its rows, and
      the totals adding up to the overall sum. */
  lemma GroupSumSpec<R, K(!new)>(rows: seq<R>, key: R -> K, val: R -> real, lt: (K, K) -> bool)
    requires IsStrictOrder(lt)
    ensures var g := GroupSum(rows, key, val, lt);
      && StrictlyAscending(g, lt)
      && KeySet(g) == RowKeys(rows, key)
      && (forall i :: 0 <= i < |g| ==> g[i].total == SumWhere(rows, key, val, g[i].key))
      && SumTotals(g) == SumOf(rows, val)
  {
    var g := GroupSum(rows, key, val, lt);
    GroupSumAscending(rows, key, val, lt);
    GroupSumKeys(rows, key, val, lt);
    GroupSumTotal(rows, key, val, lt);
    forall i | 0 <= i < |g| ensures g[i].total == SumWhere(rows, key, val, g[i].key) {
      EntryTotal(g, lt, i);
      GroupSumLookup(rows, key, val, lt, g[i].key);
    }
  }

  /** Taking one row out of a sum. */
  lemma {:induction false} SumWhereRemove<R, K>(rows: seq<R>, key: R -> K, val: R -> real, k: K, j: nat)
    requires j < |rows|
    ensures SumWhere(rows, key, val, k)
      == (if key(rows[j]) == k then val(rows[j]) else 0.0) + SumWhere(rows[..j] + rows[j + 1..], key, val, k)
  {
    if j == 0 {
      assert rows[..0] + rows[1..] == rows[1..];
    } else {
      SumWhereRemove(rows[1..], key, val, k, j - 1);
      assert (rows[..j] + rows[j + 1..])[1..] == rows[1..][..j - 1] + rows[1..][j..];
    }
  }

  /** A per-key sum does not depend on the order of the rows. */
  lemma {:induction false} SumWherePermutation<R, K>(a: seq<R>, b: seq<R>, key: R -> K, val: R -> real, k: K)
    requires multiset(a) == multiset(b)
    ensures SumWhere(a, key, val, k) == SumWhere(b, key, val, k)
    decreases |a|
  {
    if a != [] {
      assert a[0] in multiset(b);
      var j :| 0 <= j < |b| && b[j] == a[0];
      var rest := b[..j] + b[j + 1..];
      assert b == b[..j] + [b[j]] + b[j + 1..];
      assert a == [a[0]] + a[1..];
      assert multiset(b) == multiset(b[..j]) + multiset{b[j]} + multiset(b[j + 1..]);
      assert multiset(rest) == multiset(b[..j]) + multiset(b[j + 1..]);
      assert multiset(a) == multiset{a[0]} + multiset(a[1..]);
      assert multiset(b) == multiset{a[0]} + multiset(rest);
      assert forall z :: multiset(a[1..])[z] == multiset(rest)[z] by {
        forall z ensures multiset(a[1..])[z] == multiset(rest)[z] {
          assert multiset(a)[z] == multiset{a[0]}[z] + multiset(a[1..])[z];
          assert multiset(b)[z] == multiset{a[0]}[z] + multiset(rest)[z];
        }
      }
      assert multiset(a[1..]) == multiset(rest);
      SumWherePermutation(a[1..], rest, key, val, k);
      SumWhereRemove(b, key, val, k, j);
    } else {
      assert b == [];
    }
  }

  /** Two grouped results with strictly ascending keys, the same keys and the same total
      per key are the same sequence. */
  lemma {:induction false} AscendingUnique<K(!new)>(x: seq<Entry<K>>, y: seq<Entry<K>>, lt: (K, K) -> bool)
    requires IsStrictOrder(lt) && StrictlyAscending(x, lt) && StrictlyAscending(y, lt)
    requires KeySet(x) == KeySet(y)
    requires forall k :: Lookup(x, k) == Lookup(y, k)
    ensures x == y
    decreases |x|
  {
    if x == [] || y == [] {
      assert x != [] ==> x[0].key in KeySet(x);
      assert y != [] ==> y[0].key in KeySet(y);
    } else {
      var k := x[0].key;
      FirstIsLeast(x, y, lt);
      FirstIsLeast(y, x, lt);
      EntryTotal(x, lt, 0);
      EntryTotal(y, lt, 0);
      TailAfterFirst(x, lt);
      TailAfterFirst(y, lt);
      forall k' ensures Lookup(x[1..], k') == Lookup(y[1..], k') {
        if k' != k {
          assert Lookup(x, k') == Lookup(x[1..], k');
        }
      }
      AscendingUnique(x[1..], y[1..], lt);
      assert x == [x[0]] + x[1..] && y == [y[0]] + y[1..];
    }
  }

  /** The first key of an ascending result is not above any key of a result with the
      same key set. */
  lemma FirstIsLeast<K(!new)>(x: seq<Entry<K>>, y: seq<Entry<K>>, lt: (K, K) -> bool)
    requires IsStrictOrder(lt) && StrictlyAscending(x, lt) && StrictlyAscending(y, lt)
    requires KeySet(x) == KeySet(y) && x != [] && y != []
    ensures !lt(y[0].key, x[0].key)
  {
    assert y[0].key in KeySet(x);
    var e :| e in x && e.key == y[0].key;
    var i :| 0 <= i < |x| && x[i] == e;
    if i > 0 {
      assert lt(x[0].key, x[i].key);
    }
  }

  /** Dropping the first group of an ascending result drops exactly its key. */
  lemma TailAfterFirst<K(!new)>(x: seq<Entry<K>>, lt: (K, K) -> bool)
    requires IsStrictOrder(lt) && StrictlyAscending(x, lt) && x != []
    ensures StrictlyAscending(x[1..], lt)
    ensures KeySet(x[1..]) == KeySet(x) - {x[0].key}
    ensures Lookup(x[1..], x[0].key) == 0.0
  {
    assert x == [x[0]] + x[1..];
    KeySetCons(x[0], x[1..]);
    forall i | 1 <= i < |x| ensures x[i].key != x[0].key {
      assert lt(x[0].key, x[i].key);
    }
    assert x[0].key !in KeySet(x[1..]);
    NotInLookup(x[1..], x[0].key);
  }

  /** `groupby(...).sum()` depends only on which rows there are, not on their order. */
  lemma GroupSumPermutation<R, K(!new)>(a: seq<R>, b: seq<R>, key: R -> K, val: R -> real, lt: (K, K) -> bool)
    requires IsStrictOrder(lt)
    requires multiset(a) == multiset(b)
    ensures GroupSum(a, key, val, lt) == GroupSum(b, key, val, lt)
  {
    var ga, gb := GroupSum(a, key, val, lt), GroupSum(b, key, val, lt);
    GroupSumAscending(a, key, val, lt);
    GroupSumAscending(b, key, val, lt);
    GroupSumKeys(a, key, val, lt);
    GroupSumKeys(b, key, val, lt);
    assert forall r :: r in a <==> r in multiset(a);
    assert forall r :: r in b <==> r in multiset(b);
    assert RowKeys(a, key) == RowKeys(b, key);
    forall k ensures Lookup(ga, k) == Lookup(gb, k) {
      GroupSumLookup(a, key, val, lt, k);
      GroupSumLookup(b, key, val, lt, k);
      SumWherePermutation(a, b, key, val, k);
    }
    AscendingUnique(ga, gb, lt);
  }

  /** A sum over rows does not depend on their order. */
  lemma SumOfPermutation<R, K(!new)>(a: seq<R>, b: seq<R>, val: R -> real, key: R -> K, lt: (K, K) -> bool)
    requires IsStrictOrder(lt)
    requires multiset(a) == multiset(b)
    ensures SumOf(a, val) == SumOf(b, val)
  {
    GroupSumPermutation(a, b, key, val, lt);
    GroupSumTotal(a, key, val, lt);
    GroupSumTotal(b, key, val, lt);
  }

  /** `a` may stand before `b` in a ranking by total: descending or ascending. */
  predicate RanksBefore<K>(a: Entry<K>, b: Entry<K>, descending: bool)
  {
    if descending then a.total >= b.total else a.total <= b.total
  }

  ghost predicate SortedByTotal<K>(es: seq<Entry<K>>, descending: bool)
  {
    forall i, j :: 0 <= i < j < |es| ==> RanksBefore(es[i], es[j], descending)
  }

  /** Inserts `e` into a ranking, before the entries it ties with. */
  function InsertByTotal<K(==)>(e: Entry<K>, es: seq<Entry<K>>, descending: bool): (r: seq<Entry<K>>)
    requires SortedByTotal(es, descending)
    ensures SortedByTotal(r, descending)
    ensures multiset(r) == multiset(es) + multiset{e}
  {
    if es == [] || RanksBefore(e, es[0], descending) then [e] + es
    else
      var rest := InsertByTotal(e, es[1..], descending);
      InsertedAfterHead(e, es, rest, descending);
      [es[0]] + rest
  }

  /** When `e` ranks after the head of a ranking, the head still ranks first once `e`
      is inserted into the tail. */
  lemma InsertedAfterHead<K>(e: Entry<K>, es: seq<Entry<K>>, rest: seq<Entry<K>>, descending: bool)
    requires es != [] && !RanksBefore(e, es[0], descending)
    requires SortedByTotal(es, descending) && SortedByTotal(rest, descending)
    requires multiset(rest) == multiset(es[1..]) + multiset{e}
    ensures SortedByTotal([es[0]] + rest, descending)
    ensures multiset([es[0]] + rest) == multiset(es) + multiset{e}
  {
    assert es == [es[0]] + es[1..];
    forall j | 0 <= j < |rest| ensures RanksBefore(es[0], rest[j], descending) {
      assert rest[j] in multiset(rest);
      if rest[j] != e {
        assert rest[j] in multiset(es[1..]);
        var m :| 1 <= m < |es| && es[m] == rest[j];
      }
    }
  }

  /** `sort_values(ascending = !descending)` on a grouped result: a permutation of the
      entries ordered by total. */
  function SortByTotal<K(==)>(es: seq<Entry<K>>, descending: bool): (r: seq<Entry<K>>)
    ensures SortedByTotal(r, descending)
    ensures multiset(r) == multiset(es)
  {
    if es == [] then []
    else
      assert es == [es[0]] + es[1..];
      InsertByTotal(es[0], SortByTotal(es[1..], descending), descending)
  }

  /** `sort_values(...).head(n)`: the first `n` entries of the ranking. */
  function TopByTotal<K(==)>(es: seq<Entry<K>>, n: nat, descending: bool): (r: seq<Entry<K>>)
    ensures |r| == Min(n, |es|)
    ensures SortedByTotal(r, descending)
    ensures multiset(r) <= multiset(es)
    ensures forall x, y :: x in r && y in multiset(es) - multiset(r) ==> RanksBefore(x, y, descending)
  {
    var sorted := SortByTotal(es, descending);
    var r := Prefix(sorted, n);
    assert sorted == r + sorted[|r|..];
    assert multiset(es) - multiset(r) == multiset(sorted[|r|..]);
    assert forall y :: y in multiset(sorted[|r|..]) ==> y in sorted[|r|..];
    r
  }
}
