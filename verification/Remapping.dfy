/** The thermal bank-remapping state machine (performance_model/remapping.cc), on values. */
module Remapping {

  /** Geometry, policy and thresholds: fixed once `setRemapConfig` has run. */
  datatype Config = Config(
    vaults: nat, banks: nat, rows: nat, policy: nat, interVault: bool, high: real, remapT: real)
  {
    predicate Ok() { vaults > 0 && banks > 0 && rows > 0 }

    function Total(): nat { vaults * banks }
  }

  datatype BankStat = BankStat(
    logical: nat, physical: nat, remap: nat, valid: bool, disabled: bool, combined: bool, validRows: set<nat>)

  datatype PhyBank = PhyBank(logicalBank: nat, temperature: real, valid: bool)

  /** `errors` counts the "[Error]" lines printed so far. */
  datatype Manager = Manager(banks: seq<BankStat>, phy: seq<PhyBank>, errors: nat)

  // ----- Shape -----

  /** Ids index the tables, and physical ids never move. */
  ghost predicate InTables(n: nat, m: Manager) {
    && |m.banks| == n && |m.phy| == n
    && forall b | 0 <= b < n ::
         m.banks[b].physical == b && m.banks[b].logical < n && m.banks[b].remap < n && m.phy[b].logicalBank == b
  }

  /** Bank `b` is alone, the source of a pair, or the target of a pair. */
  ghost predicate Paired(m: Manager, b: nat)
    requires b < |m.banks| && m.banks[b].logical < |m.banks| && m.banks[b].remap < |m.banks|
  {
    var s := m.banks[b];
    if !s.combined then s.logical == b && s.remap == b
    else if s.logical != b then
      var t := m.banks[s.logical];
      s.remap == b && t.combined && t.logical == s.logical && t.remap == b && t.disabled == s.disabled
    else
      s.remap != b && m.banks[s.remap].combined && m.banks[s.remap].logical == b
  }

  /** Combined banks form a perfect partial matching. */
  ghost predicate Matching(n: nat, m: Manager) {
    InTables(n, m) && forall b: nat | b < n :: Paired(m, b)
  }

  /** A bank the cache must not use in its own name. */
  predicate Away(m: Manager, b: nat)
    requires b < |m.banks|
  {
    m.banks[b].disabled || m.banks[b].logical != b
  }

  ghost predicate NobodyCombined(m: Manager) {
    forall b | 0 <= b < |m.banks| :: !m.banks[b].combined
  }

  ghost predicate NoRowsMigrated(m: Manager) {
    forall b | 0 <= b < |m.banks| :: m.banks[b].validRows == {}
  }

  /** What every operation keeps. */
  ghost predicate Inv(cfg: Config, m: Manager) {
    Matching(cfg.Total(), m) && NoRowsMigrated(m) && (cfg.policy != 1 ==> NobodyCombined(m))
  }

  // ----- Operations -----

  function InitialManager(n: nat): Manager {
    Manager(
      seq(n, (i: int) requires 0 <= i < n => BankStat(i, i, i, true, false, false, {})),
      seq(n, (i: int) requires 0 <= i < n => PhyBank(i, 0.0, true)),
      0)
  }

  function SetBank(m: Manager, b: nat, s: BankStat): Manager
    requires b < |m.banks|
  {
    m.(banks := m.banks[b := s])
  }

  function SetPhyValid(m: Manager, p: nat, v: bool): Manager
    requires p < |m.phy|
  {
    m.(phy := m.phy[p := m.phy[p].(valid := v)])
  }

  function Complain(m: Manager, c: bool): Manager {
    if c then m.(errors := m.errors + 1) else m
  }

  function UpdateTemperature(m: Manager, b: nat, t: real): Manager
    requires b < |m.phy|
  {
    m.(phy := m.phy[b := m.phy[b].(temperature := t)])
  }

  /** combineWith: bank `b` moves in with bank `t`. */
  function CombineWith(m: Manager, b: nat, t: nat): Manager
    requires b < |m.banks| && t < |m.banks|
  {
    var s := m.banks[b].(logical := m.banks[t].logical, valid := false, disabled := false, combined := true);
    var m1 := SetBank(m, b, s);
    var m2 := Complain(m1, m1.banks[t].combined);
    var m3 := Complain(m2, m2.banks[t].remap != m2.banks[t].physical);
    SetBank(m3, t, m3.banks[t].(combined := true, remap := m3.banks[b].physical))
  }

  /** resetBank: enable a bank and, under policy 1, dissolve the pair it is the source of. */
  function ResetBank(cfg: Config, m: Manager, b: nat): Manager
    requires InTables(cfg.Total(), m) && b < cfg.Total()
  {
    var s := m.banks[b];
    var m0 := SetPhyValid(m, s.physical, true);
    if cfg.policy == 0 || cfg.policy == 2 then
      SetBank(m0, b, s.(disabled := false))
    else if cfg.policy == 1 then
      var m1 := SetBank(m0, b, s.(logical := b, physical := b, disabled := false));
      if b != s.logical then
        var m2 := SetBank(m1, b, m1.banks[b].(combined := false));
        var m3 := SetBank(m2, s.logical, m2.banks[s.logical].(combined := false));
        var m4 := Complain(m3, m3.banks[s.logical].remap != b);
        SetBank(m4, s.logical, m4.banks[s.logical].(remap := m4.banks[s.logical].physical))
      else if s.remap != b then
        SetBank(m1, s.remap, m1.banks[s.remap].(disabled := false))
      else m1
    else
      Complain(m0, true)
  }

  /** The window of physical banks searched for a target. */
  function WindowStart(cfg: Config, b: nat): nat
    requires cfg.banks > 0
  {
    if cfg.interVault then 0 else b / cfg.banks
  }

  function WindowEnd(cfg: Config, b: nat): nat
    requires cfg.banks > 0
  {
    if cfg.interVault then cfg.Total() else b / cfg.banks + cfg.banks
  }

  predicate Eligible(cfg: Config, m: Manager, j: nat)
    requires InTables(cfg.Total(), m) && j < cfg.Total()
  {
    var t := m.banks[m.phy[j].logicalBank];
    !t.combined && !t.disabled && m.phy[j].temperature < cfg.remapT
  }

  /** The coolest eligible bank seen before `j`, with its temperature; `b` and 1000 when there is none. */
  function Coolest(cfg: Config, m: Manager, b: nat, start: nat, j: nat): (r: (nat, real))
    requires InTables(cfg.Total(), m) && start <= j <= cfg.Total() && b < cfg.Total()
    ensures r.0 < cfg.Total()
    ensures r.0 != b ==> Eligible(cfg, m, r.0) && r.1 == m.phy[r.0].temperature
    ensures r.1 <= 1000.0 && (r.1 == 1000.0 ==> r.0 == b)
    ensures r.1 < 1000.0 ==> start <= r.0 < j && Eligible(cfg, m, r.0) && r.1 == m.phy[r.0].temperature
    ensures r.1 < 1000.0 ==> forall k | start <= k < r.0 && Eligible(cfg, m, k) :: r.1 < m.phy[k].temperature
    ensures forall k | start <= k < j && Eligible(cfg, m, k) ::
              r.1 <= m.phy[k].temperature || m.phy[k].temperature >= 1000.0
    decreases j
  {
    if j == start then (b, 1000.0)
    else
      var r := Coolest(cfg, m, b, start, j - 1);
      var p := m.phy[j - 1];
      if Eligible(cfg, m, j - 1) && p.temperature < r.1 then (p.logicalBank, p.temperature) else r
  }

  /** b/banks + banks never leaves the table, though it is not the vault's own range. */
  lemma WindowInTable(cfg: Config, b: nat)
    requires cfg.Ok() && b < cfg.Total()
    ensures WindowStart(cfg, b) <= WindowEnd(cfg, b) <= cfg.Total()
  {
    if !cfg.interVault {
      var q := b / cfg.banks;
      QuotientBelow(b, cfg.banks, cfg.vaults);
      SumBelowProduct(q + 1, cfg.banks, cfg.vaults);
    }
  }

  lemma QuotientBelow(x: nat, d: nat, q: nat)
    requires d > 0 && x < q * d
    ensures x / d < q
  {
  }

  lemma {:induction false} SumBelowProduct(x: nat, y: nat, z: nat)
    requires 0 < x <= z && 0 < y
    ensures x - 1 + y <= z * y
  {
    if y > 1 {
      SumBelowProduct(x, y - 1, z);
      assert z * y == z * (y - 1) + z;
    }
  }

  function FindTarget(cfg: Config, m: Manager, b: nat): (t: nat)
    requires cfg.Ok() && InTables(cfg.Total(), m) && b < cfg.Total()
    ensures t < cfg.Total() && (t != b ==> Eligible(cfg, m, t))
  {
    WindowInTable(cfg, b);
    Coolest(cfg, m, b, WindowStart(cfg, b), WindowEnd(cfg, b)).0
  }

  /** Switch a bank off: its contents become invalid. */
  function Disable(m: Manager, b: nat): Manager
    requires b < |m.banks| && b < |m.phy|
  {
    SetPhyValid(SetBank(m, b, m.banks[b].(disabled := true, valid := false)), b, false)
  }

  /** One iteration of runMechanism under policy 0. */
  function Step0(cfg: Config, m: Manager, b: nat): Manager
    requires InTables(cfg.Total(), m) && b < cfg.Total() && cfg.policy == 0
  {
    var t := m.phy[m.banks[b].physical].temperature;
    var m1 := if t < cfg.remapT && m.banks[b].disabled then ResetBank(cfg, m, b) else m;
    if t >= cfg.high && !m1.banks[b].disabled then Disable(m1, b) else m1
  }

  function Recover1(cfg: Config, m: Manager, b: nat): Manager
    requires InTables(cfg.Total(), m) && b < cfg.Total() && cfg.policy == 1
  {
    var s := m.banks[b];
    if m.phy[s.physical].temperature < cfg.remapT && (s.logical != b || s.disabled) then ResetBank(cfg, m, b) else m
  }

  /** A hot bank on its own looks for a partner. */
  predicate Seeks(cfg: Config, m: Manager, b: nat)
    requires InTables(cfg.Total(), m) && b < cfg.Total()
  {
    m.phy[b].temperature >= cfg.high && !m.banks[b].combined && !m.banks[b].disabled
  }

  function Combine1(cfg: Config, m: Manager, b: nat): Manager
    requires cfg.Ok() && InTables(cfg.Total(), m) && b < cfg.Total()
  {
    var t := FindTarget(cfg, m, b);
    SetPhyValid(CombineWith(m, b, t), t, false)
  }

  /** A hot bank that found no partner is switched off, with its guest if it hosts one. */
  function SwitchOff1(m: Manager, b: nat): Manager
    requires InTables(|m.banks|, m) && b < |m.banks|
  {
    var s := m.banks[b];
    if s.disabled then m
    else if s.combined then
      if s.logical == s.physical then
        Disable(SetBank(m, s.remap, m.banks[s.remap].(disabled := true)), b)
      else m
    else Disable(m, b)
  }

  /** One iteration of runMechanism under policy 1. */
  function Step1(cfg: Config, m: Manager, b: nat): Manager
    requires cfg.Ok() && Matching(cfg.Total(), m) && b < cfg.Total() && cfg.policy == 1
  {
    RecoverKeepsMatching(cfg, m, b);
    var m1 := Recover1(cfg, m, b);
    if Seeks(cfg, m1, b) && FindTarget(cfg, m1, b) != b then Combine1(cfg, m1, b)
    else if m1.phy[b].temperature >= cfg.high then SwitchOff1(m1, b)
    else m1
  }

  function Step(cfg: Config, m: Manager, b: nat): Manager
    requires cfg.Ok() && Inv(cfg, m) && b < cfg.Total()
  {
    if cfg.policy == 0 then Step0(cfg, m, b)
    else if cfg.policy == 1 then Step1(cfg, m, b)
    else if cfg.policy == 2 then m
    else Complain(m, true)
  }

  /** runMechanism up to and excluding bank `i`. */
  function PassTo(cfg: Config, m: Manager, i: nat): (r: Manager)
    requires cfg.Ok() && Inv(cfg, m) && i <= cfg.Total()
    ensures Inv(cfg, r)
  {
    hide Step, Paired;
    if i == 0 then m
    else
      var m1 := PassTo(cfg, m, i - 1);
      StepKeepsInv(cfg, m1, i - 1);
      Step(cfg, m1, i - 1)
  }

  function RunMechanism(cfg: Config, m: Manager): (r: Manager)
    requires cfg.Ok() && Inv(cfg, m)
    ensures Inv(cfg, r)
  {
    PassTo(cfg, m, cfg.Total())
  }

  // ----- Preservation of the matching -----

  lemma ResetKeepsMatching(cfg: Config, m: Manager, b: nat)
    requires Matching(cfg.Total(), m) && b < cfg.Total() && cfg.policy == 1
    ensures Matching(cfg.Total(), ResetBank(cfg, m, b))
    ensures ResetBank(cfg, m, b).errors == m.errors
  {
    var s := m.banks[b];
    assert Paired(m, b);
    if s.logical != b {
      ResetSourceKeeps(cfg, m, b);
    } else if s.remap != b {
      ResetTargetKeeps(cfg, m, b);
    } else {
      forall k: nat | k < cfg.Total() ensures Paired(ResetBank(cfg, m, b), k) { assert Paired(m, k); }
    }
  }

  lemma ResetSourceKeeps(cfg: Config, m: Manager, b: nat)
    requires Matching(cfg.Total(), m) && b < cfg.Total() && cfg.policy == 1 && m.banks[b].logical != b
    ensures Matching(cfg.Total(), ResetBank(cfg, m, b)) && ResetBank(cfg, m, b).errors == m.errors
  {
    var r := ResetBank(cfg, m, b);
    assert Paired(m, b);
    assert Paired(m, m.banks[b].logical);
    forall k: nat | k < cfg.Total() ensures Paired(r, k) {
      assert Paired(m, k);
      assert Paired(m, m.banks[k].remap);
    }
  }

  lemma ResetTargetKeeps(cfg: Config, m: Manager, b: nat)
    requires Matching(cfg.Total(), m) && b < cfg.Total() && cfg.policy == 1
    requires m.banks[b].logical == b && m.banks[b].remap != b
    ensures Matching(cfg.Total(), ResetBank(cfg, m, b)) && ResetBank(cfg, m, b).errors == m.errors
  {
    var r := ResetBank(cfg, m, b);
    assert Paired(m, b);
    assert Paired(m, m.banks[b].remap);
    forall k: nat | k < cfg.Total() ensures Paired(r, k) {
      assert Paired(m, k);
      assert Paired(m, m.banks[k].logical);
    }
  }

  lemma RecoverKeepsMatching(cfg: Config, m: Manager, b: nat)
    requires Matching(cfg.Total(), m) && b < cfg.Total() && cfg.policy == 1
    ensures Matching(cfg.Total(), Recover1(cfg, m, b)) && Recover1(cfg, m, b).errors == m.errors
  {
    ResetKeepsMatching(cfg, m, b);
  }

  lemma CombineKeepsMatching(n: nat, m: Manager, b: nat, t: nat)
    requires Matching(n, m) && b < n && t < n && b != t
    requires !m.banks[b].combined && !m.banks[b].disabled && !m.banks[t].combined && !m.banks[t].disabled
    ensures Matching(n, CombineWith(m, b, t)) && CombineWith(m, b, t).errors == m.errors
  {
    var r := CombineWith(m, b, t);
    assert Paired(m, b) && Paired(m, t);
    forall k: nat | k < n ensures Paired(r, k) {
      assert Paired(m, k);
    }
  }

  lemma SwitchOffKeepsMatching(n: nat, m: Manager, b: nat)
    requires Matching(n, m) && b < n
    ensures Matching(n, SwitchOff1(m, b)) && SwitchOff1(m, b).errors == m.errors
  {
    var s := m.banks[b];
    assert Paired(m, b);
    if s.disabled || (s.combined && s.logical != b) {
    } else if s.combined {
      SwitchOffPairKeeps(n, m, b);
    } else {
      forall k: nat | k < n ensures Paired(SwitchOff1(m, b), k) { assert Paired(m, k); }
    }
  }

  lemma SwitchOffPairKeeps(n: nat, m: Manager, b: nat)
    requires Matching(n, m) && b < n && m.banks[b].combined && m.banks[b].logical == b && !m.banks[b].disabled
    ensures Matching(n, SwitchOff1(m, b)) && SwitchOff1(m, b).errors == m.errors
  {
    var r := SwitchOff1(m, b);
    assert Paired(m, b);
    assert Paired(m, m.banks[b].remap);
    forall k: nat | k < n ensures Paired(r, k) {
      assert Paired(m, k);
      assert Paired(m, m.banks[k].logical);
    }
  }

  lemma PhyValidKeepsMatching(n: nat, m: Manager, p: nat, v: bool)
    requires Matching(n, m) && p < n
    ensures Matching(n, SetPhyValid(m, p, v))
  {
    forall k: nat | k < n ensures Paired(SetPhyValid(m, p, v), k) {
      assert Paired(m, k);
    }
  }

  lemma Step1KeepsMatching(cfg: Config, m: Manager, b: nat)
    requires cfg.Ok() && Matching(cfg.Total(), m) && b < cfg.Total() && cfg.policy == 1
    ensures Matching(cfg.Total(), Step1(cfg, m, b)) && Step1(cfg, m, b).errors == m.errors
  {
    RecoverKeepsMatching(cfg, m, b);
    var m1 := Recover1(cfg, m, b);
    if Seeks(cfg, m1, b) && FindTarget(cfg, m1, b) != b {
      var t := FindTarget(cfg, m1, b);
      CombineKeepsMatching(cfg.Total(), m1, b, t);
      PhyValidKeepsMatching(cfg.Total(), CombineWith(m1, b, t), t, false);
    } else {
      SwitchOffKeepsMatching(cfg.Total(), m1, b);
    }
  }

  lemma ResetSingleKeeps(cfg: Config, m: Manager, b: nat)
    requires Inv(cfg, m) && b < cfg.Total() && cfg.policy != 1
    ensures Inv(cfg, ResetBank(cfg, m, b)) && (cfg.policy <= 2 ==> ResetBank(cfg, m, b).errors == m.errors)
  {
    var r := ResetBank(cfg, m, b);
    forall k: nat | k < cfg.Total() ensures Paired(r, k) { assert Paired(m, k); }
  }

  lemma DisableSingleKeeps(cfg: Config, m: Manager, b: nat)
    requires Inv(cfg, m) && b < cfg.Total() && cfg.policy != 1
    ensures Inv(cfg, Disable(m, b)) && Disable(m, b).errors == m.errors
  {
    var r := Disable(m, b);
    forall k: nat | k < cfg.Total() ensures Paired(r, k) { assert Paired(m, k); }
  }

  lemma Step0KeepsInv(cfg: Config, m: Manager, b: nat)
    requires Inv(cfg, m) && b < cfg.Total() && cfg.policy == 0
    ensures Inv(cfg, Step0(cfg, m, b)) && Step0(cfg, m, b).errors == m.errors
  {
    hide Paired, ResetBank, Disable;
    ResetSingleKeeps(cfg, m, b);
    DisableSingleKeeps(cfg, m, b);
    DisableSingleKeeps(cfg, ResetBank(cfg, m, b), b);
  }

  lemma Step1KeepsRows(cfg: Config, m: Manager, b: nat)
    requires cfg.Ok() && Matching(cfg.Total(), m) && b < cfg.Total() && cfg.policy == 1 && NoRowsMigrated(m)
    ensures NoRowsMigrated(Step1(cfg, m, b))
  {
    hide Paired, Recover1, Combine1, SwitchOff1;
    RecoverKeepsMatching(cfg, m, b);
    var m1 := Recover1(cfg, m, b);
    RecoverKeepsRows(cfg, m, b);
    if Seeks(cfg, m1, b) && FindTarget(cfg, m1, b) != b {
      CombineKeepsRows(cfg, m1, b);
    } else {
      SwitchOffKeepsRows(m1, b);
    }
  }

  lemma RecoverKeepsRows(cfg: Config, m: Manager, b: nat)
    requires InTables(cfg.Total(), m) && b < cfg.Total() && cfg.policy == 1 && NoRowsMigrated(m)
    ensures NoRowsMigrated(Recover1(cfg, m, b))
  {
  }

  lemma CombineKeepsRows(cfg: Config, m: Manager, b: nat)
    requires cfg.Ok() && InTables(cfg.Total(), m) && b < cfg.Total() && NoRowsMigrated(m)
    ensures NoRowsMigrated(Combine1(cfg, m, b))
  {
  }

  lemma SwitchOffKeepsRows(m: Manager, b: nat)
    requires InTables(|m.banks|, m) && b < |m.banks| && NoRowsMigrated(m)
    ensures NoRowsMigrated(SwitchOff1(m, b))
  {
  }

  lemma StepKeepsInv(cfg: Config, m: Manager, b: nat)
    requires cfg.Ok() && Inv(cfg, m) && b < cfg.Total()
    ensures Inv(cfg, Step(cfg, m, b))
    ensures cfg.policy <= 2 ==> Step(cfg, m, b).errors == m.errors
  {
    if cfg.policy == 0 {
      Step0KeepsInv(cfg, m, b);
    } else if cfg.policy == 1 {
      Step1KeepsMatching(cfg, m, b);
      Step1KeepsRows(cfg, m, b);
    } else {
      forall k: nat | k < cfg.Total() ensures Paired(Step(cfg, m, b), k) {
        assert Paired(m, k);
      }
    }
  }
}
