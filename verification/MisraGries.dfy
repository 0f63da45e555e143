/** The frequent-row table of a bank, a Misra-Gries summary (performance_model/remapping.cc). */
module MisraGries {

  type Counts = map<nat, nat>

  /** Every count drops by one; rows that reach zero leave the table. */
  function Decremented(t: Counts): (r: Counts)
    ensures forall x :: x in r <==> x in t && t[x] != 1
    ensures forall x | x in r :: r[x] == if t[x] == 0 then 0 else t[x] - 1
  {
    map x | x in t && t[x] != 1 :: if t[x] == 0 then 0 else t[x] - 1
  }

  /** accessRow with table size `k`. */
  function Access(t: Counts, k: nat, row: nat): Counts {
    if row in t then t[row := t[row] + 1]
    else if |t| < k then t[row := 1]
    else Decremented(t)
  }

  function Count(t: Counts, row: nat): nat { if row in t then t[row] else 0 }

  /** How often `row` occurs in a list of accesses. */
  function Frequency(rows: seq<nat>, row: nat): nat {
    if rows == [] then 0
    else Frequency(rows[..|rows| - 1], row) + if rows[|rows| - 1] == row then 1 else 0
  }

  function After(k: nat, rows: seq<nat>): Counts {
    if rows == [] then map[] else Access(After(k, rows[..|rows| - 1]), k, rows[|rows| - 1])
  }

  // ----- The sum of all counts -----

  ghost function Pick(s: set<nat>): (x: nat)
    requires s != {}
    ensures x in s
  {
    var x :| x in s; x
  }

  ghost function SumOver(t: Counts, s: set<nat>): nat {
    if s == {} then 0 else Count(t, Pick(s)) + SumOver(t, s - {Pick(s)})
  }

  ghost function Total(t: Counts): nat { SumOver(t, t.Keys) }

  /** The sum does not depend on the order of picking. */
  lemma {:induction false} SumPick(t: Counts, s: set<nat>, x: nat)
    requires x in s
    ensures SumOver(t, s) == Count(t, x) + SumOver(t, s - {x})
    decreases s
  {
    var y := Pick(s);
    if x != y {
      SumPick(t, s - {y}, x);
      SumPick(t, s - {x}, y);
      assert s - {x} - {y} == s - {y} - {x};
    }
  }

  lemma {:induction false} SumAgree(t: Counts, t': Counts, s: set<nat>)
    requires forall x | x in s :: Count(t, x) == Count(t', x)
    ensures SumOver(t, s) == SumOver(t', s)
    decreases s
  {
    if s != {} { SumAgree(t, t', s - {Pick(s)}); }
  }

  /** Rows with count zero do not matter. */
  lemma {:induction false} SumWider(t: Counts, s: set<nat>, w: set<nat>)
    requires s <= w && forall x | x in w && x !in s :: Count(t, x) == 0
    ensures SumOver(t, s) == SumOver(t, w)
    decreases w
  {
    if s != w {
      var x :| x in w && x !in s;
      SumWider(t, s, w - {x});
      SumPick(t, w, x);
    }
  }

  /** Raising one row's count by one raises the sum by one. */
  lemma TotalRaise(t: Counts, t': Counts, row: nat)
    requires t'.Keys == t.Keys + {row} && Count(t', row) == Count(t, row) + 1
    requires forall x | x != row :: Count(t', x) == Count(t, x)
    ensures Total(t') == Total(t) + 1
  {
    var w := t'.Keys;
    SumWider(t, t.Keys, w);
    SumPick(t, w, row);
    SumPick(t', w, row);
    SumAgree(t, t', w - {row});
  }

  /** Every stored count is at least one. */
  ghost predicate Positive(t: Counts) { forall x | x in t :: t[x] >= 1 }

  /** Taking one off every row of `s` takes |s| off the sum. */
  lemma {:induction false} SumLower(t: Counts, t': Counts, s: set<nat>)
    requires forall x | x in s :: Count(t', x) + 1 == Count(t, x)
    ensures SumOver(t', s) + |s| == SumOver(t, s)
    decreases s
  {
    if s != {} { SumLower(t, t', s - {Pick(s)}); }
  }

  lemma TotalDecrement(t: Counts)
    requires Positive(t)
    ensures Total(Decremented(t)) + |t| == Total(t)
  {
    var d := Decremented(t);
    SumLower(t, d, t.Keys);
    assert d.Keys <= t.Keys;
    SumWider(d, d.Keys, t.Keys);
    assert |t.Keys| == |t|;
  }

  // ----- The bound -----

  /** How many accesses of a run found the table full. */
  function Misses(k: nat, rows: seq<nat>): nat {
    if rows == [] then 0
    else
      var t, row := After(k, rows[..|rows| - 1]), rows[|rows| - 1];
      Misses(k, rows[..|rows| - 1]) + if row !in t && |t| >= k then 1 else 0
  }

  lemma AccessKeepsPositive(t: Counts, k: nat, row: nat)
    requires Positive(t) && |t| <= k
    ensures Positive(Access(t, k, row)) && |Access(t, k, row)| <= k
  {
    if row !in t && |t| >= k {
      var kept := Decremented(t).Keys;
      assert t.Keys == kept + (t.Keys - kept);
    }
  }

  /** The table keeps at most `k` rows, all with positive counts. */
  lemma {:induction false} TableShape(k: nat, rows: seq<nat>)
    ensures Positive(After(k, rows)) && |After(k, rows)| <= k
  {
    if rows != [] {
      TableShape(k, rows[..|rows| - 1]);
      AccessKeepsPositive(After(k, rows[..|rows| - 1]), k, rows[|rows| - 1]);
    }
  }

  /** One access: either the sum grows by one, or it is a miss and the sum falls by k. */
  lemma AccessTotal(t: Counts, k: nat, row: nat)
    requires Positive(t) && |t| <= k
    ensures Total(Access(t, k, row)) + (if row !in t && |t| >= k then k else 0)
         == Total(t) + (if row !in t && |t| >= k then 0 else 1)
  {
    if row in t || |t| < k {
      TotalRaise(t, Access(t, k, row), row);
    } else {
      TotalDecrement(t);
    }
  }

  /** Each miss discards k + 1 accesses: the one that missed and one of each tracked row. */
  lemma {:induction false} Accounting(k: nat, rows: seq<nat>)
    ensures Total(After(k, rows)) + (k + 1) * Misses(k, rows) == |rows|
  {
    hide Access, Total;
    if rows == [] {
      EmptyTotal();
    } else {
      var front, row := rows[..|rows| - 1], rows[|rows| - 1];
      Accounting(k, front);
      TableShape(k, front);
      AccessTotal(After(k, front), k, row);
      assert (k + 1) * (Misses(k, front) + 1) == (k + 1) * Misses(k, front) + (k + 1);
    }
  }

  lemma EmptyTotal()
    ensures Total(map[]) == 0
  {
  }

  /** A stored count never overstates, and falls short by at most one per miss. */
  lemma {:induction false} CountBounds(k: nat, rows: seq<nat>, row: nat)
    ensures Count(After(k, rows), row) <= Frequency(rows, row) <= Count(After(k, rows), row) + Misses(k, rows)
  {
    if rows != [] {
      CountBounds(k, rows[..|rows| - 1], row);
      TableShape(k, rows[..|rows| - 1]);
    }
  }

  /** The Misra-Gries guarantee, for every run, table size and row. */
  lemma FrequentRowsTracked(k: nat, rows: seq<nat>, row: nat)
    ensures |After(k, rows)| <= k
    ensures row in After(k, rows) ==> 1 <= After(k, rows)[row]
    ensures Count(After(k, rows), row) <= Frequency(rows, row)
    ensures (Frequency(rows, row) - Count(After(k, rows), row)) * (k + 1) <= |rows|
    ensures Frequency(rows, row) * (k + 1) > |rows| ==> row in After(k, rows)
  {
    hide After, Frequency, Total, Misses;
    TableShape(k, rows);
    CountBounds(k, rows, row);
    Accounting(k, rows);
    var gap := Frequency(rows, row) - Count(After(k, rows), row);
    Monotone(gap, Misses(k, rows), k + 1);
  }

  lemma Monotone(x: nat, y: nat, z: nat)
    requires x <= y
    ensures x * z <= z * y
  {
  }

  // ----- The object -----

  class BankStat {
    const size: nat
    var mea: map<nat, nat>

    /** At most `size` rows, all with positive counts. */
    ghost predicate Valid()
      reads this
    {
      Positive(mea) && |mea| <= size
    }

    constructor (n: nat)
      ensures size == n && mea == map[] && Valid()
    {
      size, mea := n, map[];
    }

    /** accessRow: the two loops of the full case are spelled out. */
    method AccessRow(row: nat)
      requires Valid()
      modifies this
      ensures mea == Access(old(mea), size, row) && Valid()
    {
      AccessKeepsPositive(mea, size, row);
      if row in mea {
        mea := mea[row := mea[row] + 1];
      } else if |mea| < size {
        mea := mea[row := 1];
      } else {
        var deleted := DecrementAll();
        DeleteAll(deleted);
        assert mea == Decremented(old(mea));
      }
    }

    method DeleteAll(deleted: seq<nat>)
      modifies this
      ensures forall x :: x in mea <==> x in old(mea) && x !in deleted
      ensures forall x | x in mea :: mea[x] == old(mea)[x]
    {
      for i := 0 to |deleted|
        invariant forall x :: x in mea <==> x in old(mea) && x !in deleted[..i]
        invariant forall x | x in mea :: mea[x] == old(mea)[x]
      {
        mea := mea - {deleted[i]};
      }
    }

    /** Lowers every count and lists the rows whose count reached zero. */
    method DecrementAll() returns (deleted: seq<nat>)
      requires Positive(mea)
      modifies this
      ensures mea.Keys == old(mea).Keys && forall x | x in mea :: mea[x] == old(mea)[x] - 1
      ensures forall x :: x in deleted <==> x in mea && mea[x] == 0
    {
      deleted := [];
      var todo := mea.Keys;
      while todo != {}
        invariant todo <= mea.Keys && mea.Keys == old(mea).Keys
        invariant forall x | x in mea :: mea[x] == if x in todo then old(mea)[x] else old(mea)[x] - 1
        invariant forall x :: x in deleted <==> x in mea && x !in todo && mea[x] == 0
      {
        var x :| x in todo;
        mea := mea[x := mea[x] - 1];
        if mea[x] == 0 {
          deleted := deleted + [x];
        }
        todo := todo - {x};
      }
    }
  }
}
