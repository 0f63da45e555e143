/** Vault and bank swap tables (performance_model/vault_remap.cc, performance_model/bank_remap.cc). */
module SwapTable {

  /** Entry `i` of a table sends logical unit `i` to physical unit `ridx`. */
  datatype Entry = Entry(ridx: nat, orig: bool, valid: bool, changed: bool, access: nat)

  type Table = seq<Entry>

  /** The table is an involution, and `orig` says exactly which entries are fixed. */
  ghost predicate Involution(t: Table) {
    forall i | 0 <= i < |t| :: t[i].ridx < |t| && t[t[i].ridx].ridx == i && (t[i].orig <==> t[i].ridx == i)
  }

  function Identity(n: nat): Table {
    seq(n, (i: int) requires 0 <= i < n => Entry(i, true, true, false, 0))
  }

  /** remapTo: new destination, contents invalid. */
  function RemapTo(t: Table, i: nat, r: nat): Table
    requires i < |t|
  {
    t[i := t[i].(ridx := r, orig := r == i, valid := false)]
  }

  function Touch(t: Table, i: nat): Table
    requires i < |t|
  {
    t[i := t[i].(changed := true, access := 0)]
  }

  /** swap, in the order of the source. */
  function Swap(t: Table, src: nat, des: nat): Table
    requires src < |t| && des < |t| && t[src].ridx < |t| && t[des].ridx < |t|
  {
    var t1 := Touch(Touch(t, src), des);
    var t2 := RemapTo(t1, src, des);
    var t3 := if !t[src].orig then RemapTo(t2, t[src].ridx, t[src].ridx) else t2;
    var t4 := if !t[des].orig then RemapTo(t3, t[des].ridx, t[des].ridx) else t3;
    RemapTo(t4, des, src)
  }

  /** The data movements swap charges to copy_times. */
  function Moves(t: Table, src: nat, des: nat): nat
    requires src < |t| && des < |t|
  {
    if (t[src].orig && t[des].orig) || src == des then 3
    else if t[src].orig != t[des].orig then 4
    else 5
  }

  /** Entries whose destination differs between two tables. */
  ghost function Moved(t: Table, r: Table): set<nat>
    requires |t| == |r|
  {
    set i: nat | i < |t| && t[i].ridx != r[i].ridx
  }

  /** Where entry `i` points after a swap: the pair is joined, former partners return to themselves. */
  lemma SwapDestinations(t: Table, src: nat, des: nat, i: nat)
    requires Involution(t) && src < |t| && des < |t| && i < |t| && (src == des || t[src].ridx != des)
    ensures Swap(t, src, des)[i].ridx ==
      if i == src then des
      else if i == des then src
      else if i == t[src].ridx || i == t[des].ridx then i
      else t[i].ridx
    ensures Swap(t, src, des)[i].orig <==> Swap(t, src, des)[i].ridx == i
  {
  }

  lemma SwapKeepsInvolution(t: Table, src: nat, des: nat)
    requires Involution(t) && src < |t| && des < |t| && (src == des || t[src].ridx != des)
    ensures Involution(Swap(t, src, des))
  {
    var r := Swap(t, src, des);
    forall i | 0 <= i < |t|
      ensures r[i].ridx < |t| && r[r[i].ridx].ridx == i && (r[i].orig <==> r[i].ridx == i)
    {
      SwapDestinations(t, src, des, i);
      SwapDestinations(t, src, des, r[i].ridx);
    }
  }

  /** A swap keeps the involution exactly when it does not join a pair that is already joined. */
  lemma SwapExactly(t: Table, src: nat, des: nat)
    requires Involution(t) && src < |t| && des < |t|
    ensures Involution(Swap(t, src, des)) <==> src == des || t[src].ridx != des
  {
    if src == des || t[src].ridx != des {
      SwapKeepsInvolution(t, src, des);
    } else {
      var r := Swap(t, src, des);
      assert r[src].ridx == src && r[des].ridx == src;
    }
  }

  lemma SwapMoved(t: Table, src: nat, des: nat)
    requires Involution(t) && src < |t| && des < |t| && t[src].ridx != des
    ensures Moved(t, Swap(t, src, des)) == {src, des} + {t[src].ridx, t[des].ridx}
  {
    var r := Swap(t, src, des);
    forall i: nat | i < |t|
      ensures t[i].ridx != r[i].ridx <==> i in {src, des} + {t[src].ridx, t[des].ridx}
    {
      SwapDestinations(t, src, des, i);
    }
  }

  /** Under the guard of the callers a swap is charged one more than the entries it changes. */
  lemma SwapCost(t: Table, src: nat, des: nat)
    requires Involution(t) && src < |t| && des < |t| && t[src].ridx != des
    ensures Moves(t, src, des) == 1 + |Moved(t, Swap(t, src, des))|
  {
    hide Swap, Moved;
    SwapMoved(t, src, des);
    assert t[t[src].ridx].ridx == src && t[t[des].ridx].ridx == des;
    CornerCount(src, des, t[src].ridx, t[des].ridx);
  }

  /** How many different units a swap touches. */
  lemma CornerCount(src: nat, des: nat, a: nat, b: nat)
    requires a != des && b != src && (a == b <==> src == des)
    ensures |{src, des} + {a, b}|
         == if src == des then 2 else 2 + (if a == src then 0 else 1) + (if b == des then 0 else 1)
  {
    if src == des {
      assert {src, des} + {a, b} == {src, a};
    } else if a == src && b == des {
      assert {src, des} + {a, b} == {src, des};
    } else if a == src {
      assert {src, des} + {a, b} == {src, des, b};
    } else if b == des {
      assert {src, des} + {a, b} == {src, des, a};
    } else {
      assert {src, des} + {a, b} == {src, des, a, b};
    }
  }

  /** Contents survive a swap only where the destination did. */
  lemma SwapInvalidates(t: Table, src: nat, des: nat, i: nat)
    requires Involution(t) && src < |t| && des < |t| && i < |t| && t[src].ridx != des
    ensures Swap(t, src, des)[i].valid ==> t[i].valid && Swap(t, src, des)[i].ridx == t[i].ridx
  {
    SwapDestinations(t, src, des, i);
  }

  // ----- Choosing the other half of a swap -----

  /** The sentinel both balancers use for "no target". */
  const NONE: nat := 100

  /** balanceVaults: the least accessed unchanged vault that is less than 5 degrees hotter. */
  function VaultTarget(t: Table, temp: nat -> real, idx: nat, n: nat): (r: (nat, nat))
    requires idx < |t| && n <= |t|
    ensures r.1 <= 9999999
    ensures r.0 == NONE || exists i: nat :: i < n && VaultFits(t, temp, idx, i) && r == (t[i].ridx, t[i].access)
    ensures forall i: nat | i < n && VaultFits(t, temp, idx, i) :: r.1 <= t[i].access || t[i].access >= 9999999
  {
    if n == 0 then (NONE, 9999999)
    else
      var r := VaultTarget(t, temp, idx, n - 1);
      if VaultFits(t, temp, idx, n - 1) && t[n - 1].access < r.1 then (t[n - 1].ridx, t[n - 1].access) else r
  }

  predicate VaultFits(t: Table, temp: nat -> real, idx: nat, i: nat)
    requires idx < |t| && i < |t|
  {
    !t[i].changed && temp(t[i].ridx) < temp(t[idx].ridx) + 5.0
  }

  /** balanceBanks reads the temperature of the bank being balanced for every candidate. */
  function BankTarget(t: Table, temp: nat -> real, idx: nat, n: nat): (r: (nat, real))
    requires idx < |t| && n <= |t|
    ensures r.0 == NONE || exists i: nat :: i < n && !t[i].changed && r.0 == t[i].ridx
  {
    if n == 0 then (NONE, 999.0)
    else
      var r := BankTarget(t, temp, idx, n - 1);
      if !t[n - 1].changed && r.1 > temp(t[idx].ridx) then (t[n - 1].ridx, temp(t[idx].ridx)) else r
  }

  /** The number of leading entries already changed. */
  function LeadingChanged(t: Table): (k: nat)
    ensures k <= |t| && (k < |t| ==> !t[k].changed) && forall i | 0 <= i < k :: t[i].changed
  {
    if t == [] || !t[0].changed then 0 else 1 + LeadingChanged(t[1..])
  }

  /** So the bank balancer never compares banks: it takes the first unchanged one, whatever the temperatures. */
  lemma {:induction false} BankTargetIsFirst(t: Table, temp: nat -> real, idx: nat, n: nat)
    requires idx < |t| && n <= |t|
    ensures BankTarget(t, temp, idx, n) ==
      if temp(t[idx].ridx) < 999.0 && LeadingChanged(t) < n
      then (t[LeadingChanged(t)].ridx, temp(t[idx].ridx)) else (NONE, 999.0)
  {
    if n != 0 { BankTargetIsFirst(t, temp, idx, n - 1); }
  }

  function Unchange(t: Table): Table {
    seq(|t|, (i: int) requires 0 <= i < |t| => t[i].(changed := false))
  }

  /** A table with the total of its data movements. */
  datatype Ledger = Ledger(table: Table, copies: nat)

  function Settle(l: Ledger, idx: nat, target: nat, isVault: bool): Ledger
    requires idx < |l.table| && Involution(l.table) && (target != NONE ==> target < |l.table|)
  {
    if target != l.table[idx].ridx && target != NONE then
      Ledger(Swap(l.table, idx, target), l.copies + Moves(l.table, idx, target))
    else if target == NONE && isVault then l.(table := Unchange(l.table))
    else l
  }

  /** One call of a balancer, or an access to a unit. */
  datatype Op =
    | BalanceVault(idx: nat, temp: nat -> real)
    | BalanceBank(idx: nat, temp: nat -> real)
    | Access(idx: nat)

  function Apply(l: Ledger, op: Op): Ledger
    requires Involution(l.table) && op.idx < |l.table|
  {
    match op
    case BalanceVault(i, temp) => Settle(l, i, VaultTarget(l.table, temp, i, |l.table|).0, true)
    case BalanceBank(i, temp) => Settle(l, i, BankTarget(l.table, temp, i, |l.table|).0, false)
    case Access(i) => l.(table := l.table[i := l.table[i].(access := l.table[i].access + 1)])
  }

  /** The charge is one plus the number of entries moved, or nothing was moved. */
  ghost predicate PaysFor(l: Ledger, r: Ledger) {
    && |l.table| == |r.table|
    && var moved := Moved(l.table, r.table);
       if r.copies == l.copies then moved == {} else r.copies == l.copies + 1 + |moved|
  }

  lemma SettleLaw(l: Ledger, idx: nat, target: nat, isVault: bool)
    requires idx < |l.table| && Involution(l.table) && (target != NONE ==> target < |l.table|)
    ensures var r := Settle(l, idx, target, isVault);
      Involution(r.table) && |r.table| == |l.table| && PaysFor(l, r)
  {
    if target != l.table[idx].ridx && target != NONE {
      SwapKeepsInvolution(l.table, idx, target);
      SwapCost(l.table, idx, target);
    }
  }

  /** Every operation keeps the involution and pays one plus the number of entries it moves, or moves nothing. */
  lemma ApplyLaw(l: Ledger, op: Op)
    requires Involution(l.table) && op.idx < |l.table|
    ensures var r := Apply(l, op);
      Involution(r.table) && |r.table| == |l.table| && PaysFor(l, r)
  {
    match op
    case BalanceVault(i, temp) => SettleLaw(l, i, VaultTarget(l.table, temp, i, |l.table|).0, true);
    case BalanceBank(i, temp) => SettleLaw(l, i, BankTarget(l.table, temp, i, |l.table|).0, false);
    case Access(i) =>
  }

  // ----- What a balancer does, told without its search and its swap -----

  /** Entry `i` after units `src` and `des` were joined: they point at each other, former partners at themselves. */
  function JoinedEntry(t: Table, src: nat, des: nat, i: nat): Entry
    requires src < |t| && des < |t| && i < |t|
  {
    if i == src || i == des then Entry(if i == src then des else src, src == des, false, true, 0)
    else if i == t[src].ridx || i == t[des].ridx then t[i].(ridx := i, orig := true, valid := false)
    else t[i]
  }

  /** From l to r, unit `idx` was joined with `u`, unless it points there already. */
  ghost predicate JoinedWith(l: Ledger, r: Ledger, idx: nat, u: nat)
    requires idx < |l.table| && u < |l.table|
  {
    var t := l.table;
    if u == t[idx].ridx then r == l
    else
      && |r.table| == |t| && (forall i: nat | i < |t| :: r.table[i] == JoinedEntry(t, idx, u, i))
      && r.copies == l.copies +
           if (t[idx].orig && t[u].orig) || idx == u then 3 else if t[idx].orig || t[u].orig then 4 else 5
  }

  /** All changed flags are clear, nothing else is different. */
  ghost predicate FlagsCleared(l: Ledger, r: Ledger) {
    && r.copies == l.copies && |r.table| == |l.table|
    && forall i: nat | i < |l.table| :: r.table[i] == l.table[i].(changed := false)
  }

  lemma SwapIs(t: Table, src: nat, des: nat, i: nat)
    requires Involution(t) && src < |t| && des < |t| && i < |t| && (src == des || t[src].ridx != des)
    ensures Swap(t, src, des)[i] == JoinedEntry(t, src, des, i)
  {
  }

  lemma SettleIs(l: Ledger, idx: nat, u: nat, isVault: bool)
    requires idx < |l.table| && Involution(l.table) && u < |l.table| && u != NONE
    ensures JoinedWith(l, Settle(l, idx, u, isVault), idx, u)
  {
    if u != l.table[idx].ridx {
      forall i: nat | i < |l.table| ensures Swap(l.table, idx, u)[i] == JoinedEntry(l.table, idx, u, i) {
        SwapIs(l.table, idx, u, i);
      }
    }
  }

  /** Vault `i` fits and was accessed less than 9999999 times, least of those that fit below `n`, the first of them. */
  ghost predicate LeastFitting(t: Table, temp: nat -> real, idx: nat, n: nat, i: nat)
    requires idx < |t| && n <= |t|
  {
    && i < n && VaultFits(t, temp, idx, i) && t[i].access < 9999999
    && forall j: nat | j < n && VaultFits(t, temp, idx, j) ::
         t[i].access <= t[j].access && (j < i ==> t[i].access < t[j].access)
  }

  ghost predicate NoneFits(t: Table, temp: nat -> real, idx: nat, n: nat)
    requires idx < |t| && n <= |t|
  {
    forall j: nat | j < n && VaultFits(t, temp, idx, j) :: t[j].access >= 9999999
  }

  lemma {:induction false} VaultTargetIs(t: Table, temp: nat -> real, idx: nat, n: nat) returns (i: nat)
    requires idx < |t| && n <= |t|
    ensures if NoneFits(t, temp, idx, n) then VaultTarget(t, temp, idx, n) == (NONE, 9999999)
            else LeastFitting(t, temp, idx, n, i) && VaultTarget(t, temp, idx, n) == (t[i].ridx, t[i].access)
  {
    if n == 0 {
      i := 0;
    } else {
      i := VaultTargetIs(t, temp, idx, n - 1);
      if VaultFits(t, temp, idx, n - 1) && t[n - 1].access < VaultTarget(t, temp, idx, n - 1).1 {
        i := n - 1;
      }
    }
  }

  /**
   balanceVaults joins `idx` with the destination of the first least accessed vault that fits, unless it points there
   already. When no vault fits, or that destination is the sentinel, it clears the changed flags.
   */
  lemma BalanceVaultLaw(l: Ledger, idx: nat, temp: nat -> real) returns (i: nat)
    requires Involution(l.table) && idx < |l.table|
    ensures var t, r := l.table, Apply(l, BalanceVault(idx, temp));
      if NoneFits(t, temp, idx, |t|) then FlagsCleared(l, r)
      else
        && LeastFitting(t, temp, idx, |t|, i)
        && if t[i].ridx == 100 then FlagsCleared(l, r) else JoinedWith(l, r, idx, t[i].ridx)
  {
    hide Swap, VaultFits;
    i := VaultTargetIs(l.table, temp, idx, |l.table|);
    if !NoneFits(l.table, temp, idx, |l.table|) && l.table[i].ridx != 100 {
      SettleIs(l, idx, l.table[i].ridx, true);
    }
  }

  /**
   balanceBanks joins `idx` with the destination of the first unchanged bank, unless it points there already. When all
   are changed, that destination is the sentinel, or `idx` itself is at 999 degrees or more, nothing happens.
   */
  lemma BalanceBankLaw(l: Ledger, idx: nat, temp: nat -> real, i: nat)
    requires Involution(l.table) && idx < |l.table| && i <= |l.table|
    requires (forall j: nat | j < i :: l.table[j].changed) && (i < |l.table| ==> !l.table[i].changed)
    ensures var t, r := l.table, Apply(l, BalanceBank(idx, temp));
      if i == |t| || t[i].ridx == 100 || temp(t[idx].ridx) >= 999.0 then r == l
      else JoinedWith(l, r, idx, t[i].ridx)
  {
    hide Swap;
    BankTargetIsFirst(l.table, temp, idx, |l.table|);
    assert LeadingChanged(l.table) == i;
    if i < |l.table| && l.table[i].ridx != 100 {
      SettleIs(l, idx, l.table[i].ridx, false);
    }
  }

  ghost function Run(l: Ledger, ops: seq<Op>): (r: Ledger)
    requires Involution(l.table) && forall k | 0 <= k < |ops| :: ops[k].idx < |l.table|
    ensures Involution(r.table) && |r.table| == |l.table|
  {
    if ops == [] then l
    else
      var r := Run(l, ops[..|ops| - 1]);
      ApplyLaw(r, ops[|ops| - 1]);
      Apply(r, ops[|ops| - 1])
  }

  /** The operations that concern unit `i`. */
  function Accesses(ops: seq<Op>, i: nat): nat {
    if ops == [] then 0
    else Accesses(ops[..|ops| - 1], i) + if ops[|ops| - 1].idx == i then 1 else 0
  }

  /** Between two calls of a balancer the table only counts accesses. */
  lemma {:induction false} RunCounts(l: Ledger, ops: seq<Op>, i: nat)
    requires Involution(l.table) && (forall k | 0 <= k < |ops| :: ops[k].idx < |l.table| && ops[k].Access?)
    requires i < |l.table|
    ensures var r := Run(l, ops);
      r.copies == l.copies && r.table[i] == l.table[i].(access := l.table[i].access + Accesses(ops, i))
  {
    if ops != [] { RunCounts(l, ops[..|ops| - 1], i); }
  }

  /** Over every run of balancing, the table stays a permutation and every unit is reached. */
  lemma RunIsPermutation(n: nat, ops: seq<Op>, i: nat, j: nat)
    requires (forall k | 0 <= k < |ops| :: ops[k].idx < n) && i < n && j < n
    ensures var t := Run(Ledger(Identity(n), 0), ops).table;
      && |t| == n && (t[i].ridx == t[j].ridx <==> i == j)
      && t[i].ridx < n && t[t[i].ridx].ridx == i && (t[i].orig <==> t[i].ridx == i)
  {
    var t := Run(Ledger(Identity(n), 0), ops).table;
    assert t[t[i].ridx].ridx == i && t[t[j].ridx].ridx == j;
  }

  // ----- The object -----

  class RemappingStructure {
    var table: Table
    var copyTimes: nat

    constructor (n: nat)
      ensures table == Identity(n) && copyTimes == 0
    {
      table, copyTimes := Identity(n), 0;
    }

    ghost function State(): Ledger
      reads this
    {
      Ledger(table, copyTimes)
    }

    method RemapEntry(i: nat, r: nat)
      requires i < |table|
      modifies this`table
      ensures table == RemapTo(old(table), i, r)
    {
      table := table[i := table[i].(ridx := r)];
      if r != i {
        table := table[i := table[i].(orig := false)];
      } else {
        table := table[i := table[i].(orig := true)];
      }
      table := table[i := table[i].(valid := false)];
    }

    method SwapUnits(src: nat, des: nat)
      requires src < |table| && des < |table| && Involution(table)
      modifies this
      ensures table == Swap(old(table), src, des) && copyTimes == old(copyTimes) + Moves(old(table), src, des)
    {
      var sOrig, dOrig := table[src].orig, table[des].orig;
      var srcDes, desDes := table[src].ridx, table[des].ridx;
      table := table[src := table[src].(changed := true, access := 0)];
      table := table[des := table[des].(changed := true, access := 0)];
      RemapEntry(src, des);
      if !sOrig {
        RemapEntry(srcDes, srcDes);
      }
      if !dOrig {
        RemapEntry(desDes, desDes);
      }
      RemapEntry(des, src);
      var moves := 0;
      if (sOrig && dOrig) || src == des {
        moves := 3;
      } else if (sOrig && !dOrig) || (!sOrig && dOrig) {
        moves := 4;
      } else {
        moves := 5;
      }
      copyTimes := copyTimes + moves;
    }

    /** The search loop of balanceVaults. */
    method SearchVault(idx: nat, temp: nat -> real) returns (target: nat)
      requires idx < |table|
      ensures target == VaultTarget(table, temp, idx, |table|).0
    {
      var minCount := 9999999;
      target := NONE;
      for i := 0 to |table|
        invariant (target, minCount) == VaultTarget(table, temp, idx, i)
      {
        if !table[i].changed {
          if table[i].access < minCount && temp(table[i].ridx) < temp(table[idx].ridx) + 5.0 {
            minCount := table[i].access;
            target := table[i].ridx;
          }
        }
      }
    }

    /** The search loop of balanceBanks. */
    method SearchBank(idx: nat, temp: nat -> real) returns (target: nat)
      requires idx < |table|
      ensures target == BankTarget(table, temp, idx, |table|).0
    {
      var minTemp := 999.0;
      target := NONE;
      for i := 0 to |table|
        invariant (target, minTemp) == BankTarget(table, temp, idx, i)
      {
        if !table[i].changed {
          if minTemp > temp(table[idx].ridx) {
            minTemp := temp(table[idx].ridx);
            target := table[i].ridx;
          }
        }
      }
    }

    method BalanceVaults(idx: nat, temp: nat -> real)
      requires Involution(table) && idx < |table|
      modifies this
      ensures State() == Apply(old(State()), BalanceVault(idx, temp)) && Involution(table)
    {
      hide VaultTarget, Swap;
      ApplyLaw(State(), BalanceVault(idx, temp));
      var target := SearchVault(idx, temp);
      if target != table[idx].ridx && target != NONE {
        SwapUnits(idx, target);
      } else if target == NONE {
        EnableAll();
      }
    }

    method EnableAll()
      modifies this`table
      ensures table == Unchange(old(table))
    {
      for i := 0 to |table|
        invariant |table| == |old(table)|
        invariant forall k | 0 <= k < i :: table[k] == old(table)[k].(changed := false)
        invariant forall k | i <= k < |table| :: table[k] == old(table)[k]
      {
        table := table[i := table[i].(changed := false)];
      }
    }

    method BalanceBanks(idx: nat, temp: nat -> real)
      requires Involution(table) && idx < |table|
      modifies this
      ensures State() == Apply(old(State()), BalanceBank(idx, temp)) && Involution(table)
    {
      hide BankTarget, Swap;
      ApplyLaw(State(), BalanceBank(idx, temp));
      var target := SearchBank(idx, temp);
      if target != table[idx].ridx && target != NONE {
        SwapUnits(idx, target);
      }
    }
  }
}
