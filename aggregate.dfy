/**
 * What pandas does with the selected rows: the derived "Pendapatan" column,
 * `df[...].sum()`, and `groupby(key)[...].sum()`.
 */
module Aggregate {
  import opened Ledger

  function SumOf(rows: seq<Delivery>, val: Delivery -> int): int {
    if rows == [] then 0 else val(rows[0]) + SumOf(rows[1..], val)
  }

  lemma {:induction false} SumOfAppend(a: seq<Delivery>, b: seq<Delivery>, val: Delivery -> int)
    ensures SumOf(a + b, val) == SumOf(a, val) + SumOf(b, val)
  {
    if a == [] {
      assert a + b == b;
    } else {
      assert (a + b)[1..] == a[1..] + b;
      SumOfAppend(a[1..], b, val);
    }
  }

  lemma {:induction false} SumOfNonNegative(rows: seq<Delivery>, val: Delivery -> int)
    requires forall r :: r in rows ==> val(r) >= 0
    ensures SumOf(rows, val) >= 0
  {
    if rows != [] {
      assert rows[0] in rows;
      SumOfNonNegative(rows[1..], val);
    }
  }

  /** The sum of "Pendapatan" over the given rows. */
  function TotalRevenue(rows: seq<Delivery>): int {
    SumOf(rows, Revenue)
  }

  lemma TotalRevenueNonNegative(rows: seq<Delivery>)
    requires forall r :: r in rows ==> NonNegative(r)
    ensures TotalRevenue(rows) >= 0
  {
    forall r | r in rows ensures Revenue(r) >= 0 {
      assert NonNegative(r);
    }
    SumOfNonNegative(rows, Revenue);
  }

  function SumSeq(xs: seq<int>): int {
    if xs == [] then 0 else xs[0] + SumSeq(xs[1..])
  }

  /** A report's rows with the derived "Pendapatan" column, and the total shown under it. */
  datatype Table = Table(rows: seq<Delivery>, pendapatan: seq<int>, total: int)

  /** The "Pendapatan" column holds sold x price for each shown row, in order. */
  predicate RevenueColumn(t: Table) {
    |t.pendapatan| == |t.rows| && forall i :: 0 <= i < |t.rows| ==> t.pendapatan[i] == Revenue(t.rows[i])
  }

  /** `df["Pendapatan"] = df["jumlah_terjual"] * df["harga_satuan"]`, then `df["Pendapatan"].sum()`. */
  function Tabulate(rows: seq<Delivery>): (t: Table)
    ensures t.rows == rows
    ensures |t.pendapatan| == |rows|
    ensures forall i :: 0 <= i < |rows| ==> t.pendapatan[i] == rows[i].jumlahTerjual * rows[i].hargaSatuan
    ensures t.total == TotalRevenue(rows)
  {
    var column := seq(|rows|, i requires 0 <= i < |rows| => Revenue(rows[i]));
    RevenueColumnSum(rows);
    Table(rows, column, SumSeq(column))
  }

  lemma {:induction false} RevenueColumnSum(rows: seq<Delivery>)
    ensures SumSeq(seq(|rows|, i requires 0 <= i < |rows| => Revenue(rows[i]))) == TotalRevenue(rows)
  {
    var column := seq(|rows|, i requires 0 <= i < |rows| => Revenue(rows[i]));
    if rows != [] {
      assert column[1..] == seq(|rows[1..]|, i requires 0 <= i < |rows[1..]| => Revenue(rows[1..][i]));
      RevenueColumnSum(rows[1..]);
    }
  }

  /** The rows whose key is `k`. */
  function WithKey<K(==)>(rows: seq<Delivery>, key: Delivery -> K, k: K): (out: seq<Delivery>)
    ensures forall r :: r in out <==> r in rows && key(r) == k
  {
    if rows == [] then []
    else (if key(rows[0]) == k then [rows[0]] else []) + WithKey(rows[1..], key, k)
  }

  /** A group keeps each row with its key exactly as often as the rows hold it. */
  lemma {:induction false} WithKeyCounts<K>(rows: seq<Delivery>, key: Delivery -> K, k: K)
    ensures forall r :: multiset(WithKey(rows, key, k))[r] == if key(r) == k then multiset(rows)[r] else 0
  {
    if rows != [] {
      WithKeyCounts(rows[1..], key, k);
      assert rows == [rows[0]] + rows[1..];
    }
  }

  /** The rows whose key is not `k`. */
  function WithoutKey<K(==)>(rows: seq<Delivery>, key: Delivery -> K, k: K): (out: seq<Delivery>)
    ensures forall r :: r in out <==> r in rows && key(r) != k
    ensures |out| <= |rows|
  {
    if rows == [] then []
    else (if key(rows[0]) != k then [rows[0]] else []) + WithoutKey(rows[1..], key, k)
  }

  lemma {:induction false} SumOfSplit<K>(rows: seq<Delivery>, key: Delivery -> K, k: K, val: Delivery -> int)
    ensures SumOf(WithKey(rows, key, k), val) + SumOf(WithoutKey(rows, key, k), val) == SumOf(rows, val)
  {
    if rows != [] {
      SumOfSplit(rows[1..], key, k, val);
      var w, wo := WithKey(rows[1..], key, k), WithoutKey(rows[1..], key, k);
      if key(rows[0]) == k {
        assert WithKey(rows, key, k) == [rows[0]] + w;
        assert WithoutKey(rows, key, k) == wo;
        SumOfAppend([rows[0]], w, val);
      } else {
        assert WithKey(rows, key, k) == w;
        assert WithoutKey(rows, key, k) == [rows[0]] + wo;
        SumOfAppend([rows[0]], wo, val);
      }
    }
  }

  lemma {:induction false} WithKeyOfWithoutKey<K>(rows: seq<Delivery>, key: Delivery -> K, k: K, k': K)
    requires k != k'
    ensures WithKey(WithoutKey(rows, key, k), key, k') == WithKey(rows, key, k')
  {
    if rows != [] {
      WithKeyOfWithoutKey(rows[1..], key, k, k');
      var wo := WithoutKey(rows[1..], key, k);
      if key(rows[0]) != k {
        assert WithoutKey(rows, key, k) == [rows[0]] + wo;
        assert ([rows[0]] + wo)[1..] == wo;
      } else {
        assert WithoutKey(rows, key, k) == wo;
      }
    }
  }

  /** One entry per distinct key, with the sum of `val` over the rows having that key. */
  datatype Subtotal<K> = Subtotal(key: K, amount: int)

  function SumAmounts<K>(gs: seq<Subtotal<K>>): int {
    if gs == [] then 0 else gs[0].amount + SumAmounts(gs[1..])
  }

  /**
   * `groupby(key)[val].sum()`: keys in order of first appearance, each the
   * first time it is seen, with the rest of the rows grouped after it.
   */
  function GroupSums<K(==)>(rows: seq<Delivery>, key: Delivery -> K, val: Delivery -> int): (gs: seq<Subtotal<K>>)
    decreases |rows|
  {
    if rows == [] then []
    else
      var k := key(rows[0]);
      [Subtotal(k, SumOf(WithKey(rows, key, k), val))] + GroupSums(WithoutKey(rows[1..], key, k), key, val)
  }

  /** Some row has key `k`. */
  ghost predicate Occurs<K>(rows: seq<Delivery>, key: Delivery -> K, k: K) {
    exists r :: r in rows && key(r) == k
  }

  /** Some entry is for key `k`. */
  ghost predicate Listed<K>(gs: seq<Subtotal<K>>, k: K) {
    exists i :: 0 <= i < |gs| && gs[i].key == k
  }

  /** Every entry is for a key that occurs in the rows. */
  lemma {:induction false} GroupSumsKeysOccur<K>(rows: seq<Delivery>, key: Delivery -> K, val: Delivery -> int)
    ensures forall i :: 0 <= i < |GroupSums(rows, key, val)| ==> Occurs(rows, key, GroupSums(rows, key, val)[i].key)
    decreases |rows|
  {
    if rows != [] {
      var k := key(rows[0]);
      var rest := WithoutKey(rows[1..], key, k);
      GroupSumsKeysOccur(rest, key, val);
      var gs, tail := GroupSums(rows, key, val), GroupSums(rest, key, val);
      assert gs == [Subtotal(k, SumOf(WithKey(rows, key, k), val))] + tail;
      assert rows[0] in rows;
      forall i | 1 <= i < |gs|
        ensures Occurs(rows, key, gs[i].key)
      {
        assert gs[i] == tail[i - 1];
        assert Occurs(rest, key, tail[i - 1].key);
        var r :| r in rest && key(r) == tail[i - 1].key;
        assert r in rows;
      }
    }
  }

  /** Every key that occurs in the rows has an entry. */
  lemma {:induction false} GroupSumsKeysListed<K>(rows: seq<Delivery>, key: Delivery -> K, val: Delivery -> int)
    ensures forall r :: r in rows ==> Listed(GroupSums(rows, key, val), key(r))
    decreases |rows|
  {
    if rows != [] {
      var k := key(rows[0]);
      var rest := WithoutKey(rows[1..], key, k);
      GroupSumsKeysListed(rest, key, val);
      var gs, tail := GroupSums(rows, key, val), GroupSums(rest, key, val);
      assert gs == [Subtotal(k, SumOf(WithKey(rows, key, k), val))] + tail;
      forall r | r in rows
        ensures Listed(gs, key(r))
      {
        if key(r) == k {
          assert gs[0].key == key(r);
        } else {
          assert r in rows[1..];
          assert r in rest;
          assert Listed(tail, key(r));
          var i :| 0 <= i < |tail| && tail[i].key == key(r);
          assert gs[i + 1] == tail[i];
        }
      }
    }
  }

  /** No key has two entries. */
  lemma {:induction false} GroupSumsKeysDistinct<K>(rows: seq<Delivery>, key: Delivery -> K, val: Delivery -> int)
    ensures forall i, j :: 0 <= i < j < |GroupSums(rows, key, val)| ==>
      GroupSums(rows, key, val)[i].key != GroupSums(rows, key, val)[j].key
    decreases |rows|
  {
    if rows != [] {
      var k := key(rows[0]);
      var rest := WithoutKey(rows[1..], key, k);
      GroupSumsKeysDistinct(rest, key, val);
      GroupSumsKeysOccur(rest, key, val);
      var gs, tail := GroupSums(rows, key, val), GroupSums(rest, key, val);
      assert gs == [Subtotal(k, SumOf(WithKey(rows, key, k), val))] + tail;
      forall j | 1 <= j < |gs|
        ensures gs[j].key != k
      {
        assert gs[j] == tail[j - 1];
        assert Occurs(rest, key, tail[j - 1].key);
      }
    }
  }

  lemma {:induction false} GroupSumsAmounts<K>(rows: seq<Delivery>, key: Delivery -> K, val: Delivery -> int)
    ensures forall i :: 0 <= i < |GroupSums(rows, key, val)| ==>
      GroupSums(rows, key, val)[i].amount == SumOf(WithKey(rows, key, GroupSums(rows, key, val)[i].key), val)
    decreases |rows|
  {
    if rows != [] {
      var k := key(rows[0]);
      var rest := WithoutKey(rows[1..], key, k);
      GroupSumsAmounts(rest, key, val);
      GroupSumsKeysOccur(rest, key, val);
      var gs, tail := GroupSums(rows, key, val), GroupSums(rest, key, val);
      assert gs == [Subtotal(k, SumOf(WithKey(rows, key, k), val))] + tail;
      forall i | 1 <= i < |gs|
        ensures gs[i].amount == SumOf(WithKey(rows, key, gs[i].key), val)
      {
        var k' := tail[i - 1].key;
        assert gs[i] == tail[i - 1];
        assert Occurs(rest, key, k');
        assert k' != k;
        WithKeyOfWithoutKey(rows[1..], key, k, k');
        assert WithKey(rows, key, k') == WithKey(rows[1..], key, k');
      }
    }
  }

  lemma {:induction false} GroupSumsTotal<K>(rows: seq<Delivery>, key: Delivery -> K, val: Delivery -> int)
    ensures SumAmounts(GroupSums(rows, key, val)) == SumOf(rows, val)
    decreases |rows|
  {
    if rows != [] {
      var k := key(rows[0]);
      var rest := WithoutKey(rows[1..], key, k);
      GroupSumsTotal(rest, key, val);
      var gs := GroupSums(rows, key, val);
      assert gs[1..] == GroupSums(rest, key, val);
      assert WithKey(rows, key, k) == [rows[0]] + WithKey(rows[1..], key, k);
      SumOfAppend([rows[0]], WithKey(rows[1..], key, k), val);
      SumOfSplit(rows[1..], key, k, val);
    }
  }
}
