/** The remapping manager as the object the controller calls (performance_model/remapping.cc). */
module RemapManager {
  import opened Remapping
  import opened ThermalSafety
  import opened Geometry

  // ----- resetStats -----

  function StatsStep(cfg: Config, m: Manager, reset: bool, b: nat): Manager
    requires InTables(cfg.Total(), m) && b < cfg.Total()
  {
    var m1 := SetBank(m, b, m.banks[b].(valid := true, validRows := {}));
    if reset && m.phy[m.banks[b].physical].temperature < cfg.high then ResetBank(cfg, m1, b) else m1
  }

  function StatsTo(cfg: Config, m: Manager, reset: bool, i: nat): (r: Manager)
    requires Inv(cfg, m) && i <= cfg.Total()
    ensures Inv(cfg, r)
  {
    hide StatsStep, Paired;
    if i == 0 then m
    else
      var m1 := StatsTo(cfg, m, reset, i - 1);
      StatsStepKeepsInv(cfg, m1, reset, i - 1);
      StatsStep(cfg, m1, reset, i - 1)
  }

  lemma MarkValidKeepsInv(cfg: Config, m: Manager, b: nat)
    requires Inv(cfg, m) && b < cfg.Total()
    ensures Inv(cfg, SetBank(m, b, m.banks[b].(valid := true, validRows := {})))
  {
    var r := SetBank(m, b, m.banks[b].(valid := true, validRows := {}));
    forall k: nat | k < cfg.Total() ensures Paired(r, k) { assert Paired(m, k); }
  }

  lemma ResetKeepsInv(cfg: Config, m: Manager, b: nat)
    requires Inv(cfg, m) && b < cfg.Total()
    ensures Inv(cfg, ResetBank(cfg, m, b))
  {
    if cfg.policy == 1 {
      ResetKeepsMatching(cfg, m, b);
    } else {
      ResetSingleKeeps(cfg, m, b);
    }
  }

  lemma StatsStepKeepsInv(cfg: Config, m: Manager, reset: bool, b: nat)
    requires Inv(cfg, m) && b < cfg.Total()
    ensures Inv(cfg, StatsStep(cfg, m, reset, b))
  {
    hide ResetBank, Paired;
    MarkValidKeepsInv(cfg, m, b);
    ResetKeepsInv(cfg, SetBank(m, b, m.banks[b].(valid := true, validRows := {})), b);
  }

  lemma ResetLaw(cfg: Config, m: Manager, b: nat, k: nat)
    requires Inv(cfg, m) && b < cfg.Total() && k < cfg.Total() && cfg.policy <= 2
    ensures Usable(ResetBank(cfg, m, b), k) <==> k == b || Usable(m, k)
    ensures ResetBank(cfg, m, b).phy[k].temperature == m.phy[k].temperature
    ensures ResetBank(cfg, m, b).banks[k].valid == m.banks[k].valid
  {
    assert Paired(m, b);
    assert Paired(m, m.banks[b].logical);
    assert Paired(m, m.banks[b].remap);
  }

  lemma StatsStepLaw(cfg: Config, m: Manager, reset: bool, b: nat, k: nat)
    requires Inv(cfg, m) && b < cfg.Total() && k < cfg.Total() && cfg.policy <= 2
    ensures |StatsStep(cfg, m, reset, b).banks| == |StatsStep(cfg, m, reset, b).phy| == cfg.Total()
    ensures Usable(StatsStep(cfg, m, reset, b), k)
       <==> Usable(m, k) || (k == b && reset && m.phy[b].temperature < cfg.high)
    ensures StatsStep(cfg, m, reset, b).phy[k].temperature == m.phy[k].temperature
    ensures StatsStep(cfg, m, reset, b).banks[k].valid <==> k == b || m.banks[k].valid
  {
    hide Paired, ResetBank;
    MarkValidKeepsInv(cfg, m, b);
    ResetKeepsInv(cfg, SetBank(m, b, m.banks[b].(valid := true, validRows := {})), b);
    ResetLaw(cfg, SetBank(m, b, m.banks[b].(valid := true, validRows := {})), b, k);
  }

  /** A resetting clean-up brings back exactly the banks below the high threshold; a plain one brings back none. */
  lemma {:induction false} StatsLaw(cfg: Config, m: Manager, reset: bool, i: nat, k: nat)
    requires Inv(cfg, m) && i <= cfg.Total() && k < cfg.Total() && cfg.policy <= 2
    ensures Usable(StatsTo(cfg, m, reset, i), k)
       <==> Usable(m, k) || (k < i && reset && m.phy[k].temperature < cfg.high)
    ensures StatsTo(cfg, m, reset, i).phy[k].temperature == m.phy[k].temperature
    ensures StatsTo(cfg, m, reset, i).banks[k].valid <==> k < i || m.banks[k].valid
  {
    hide StatsStep;
    if i != 0 {
      StatsLaw(cfg, m, reset, i - 1, k);
      StatsLaw(cfg, m, reset, i - 1, i - 1);
      StatsStepLaw(cfg, StatsTo(cfg, m, reset, i - 1), reset, i - 1, k);
    }
  }

  /** The plain clean-up marks every bank valid, forgets its migrated rows and changes nothing else. */
  lemma {:induction false} PlainStats(cfg: Config, m: Manager, i: nat, k: nat)
    requires Inv(cfg, m) && i <= cfg.Total() && k < cfg.Total()
    ensures var r := StatsTo(cfg, m, false, i);
            && r.phy == m.phy && r.errors == m.errors
            && r.banks[k] == if k < i then m.banks[k].(valid := true, validRows := {}) else m.banks[k]
  {
    hide Paired, StatsStep;
    if i != 0 {
      PlainStats(cfg, m, i - 1, k);
      PlainStats(cfg, m, i - 1, i - 1);
      PlainStep(cfg, StatsTo(cfg, m, false, i - 1), i - 1);
    }
  }

  lemma PlainStep(cfg: Config, m: Manager, b: nat)
    requires InTables(cfg.Total(), m) && b < cfg.Total()
    ensures StatsStep(cfg, m, false, b) == SetBank(m, b, m.banks[b].(valid := true, validRows := {}))
  {
  }

  /** The ids runMechanism reads before the recovery are still right for a bank that is combined after it. */
  lemma RecoverKeepsIds(cfg: Config, m: Manager, b: nat)
    requires Matching(cfg.Total(), m) && b < cfg.Total() && cfg.policy == 1
    ensures var s := Recover1(cfg, m, b).banks;
      |s| == cfg.Total() && (s[b].combined ==> s[b].logical == m.banks[b].logical)
    ensures Recover1(cfg, m, b).phy[b].temperature == m.phy[b].temperature
  {
    RecoverKeepsMatching(cfg, m, b);
    assert Paired(m, b);
  }

  // ----- The object -----

  class RemappingManager {
    const cfg: Config
    var banks: seq<BankStat>
    var phy: seq<PhyBank>
    var errors: nat

    ghost function State(): Manager
      reads this
    {
      Manager(banks, phy, errors)
    }

    ghost predicate Valid()
      reads this
    {
      cfg.Ok() && Inv(cfg, State())
    }

    constructor (c: Config)
      requires c.Ok()
      ensures cfg == c && State() == InitialManager(c.Total()) && Valid()
    {
      cfg, banks, phy, errors := c, [], [], 0;
      new;
      for i := 0 to c.Total()
        invariant |banks| == |phy| == i && errors == 0
        invariant forall k | 0 <= k < i :: banks[k] == InitialManager(c.Total()).banks[k]
        invariant forall k | 0 <= k < i :: phy[k] == InitialManager(c.Total()).phy[k]
      {
        phy := phy + [PhyBank(i, 0.0, true)];
        banks := banks + [BankStat(i, i, i, true, false, false, {})];
      }
      assert banks == InitialManager(c.Total()).banks;
      assert phy == InitialManager(c.Total()).phy;
    }

    method UpdateTemperature(v: nat, b: nat, t: real)
      requires Valid() && v < cfg.vaults && b < cfg.banks
      modifies this
      ensures BankId(cfg, v, b) < cfg.Total()
      ensures State() == Remapping.UpdateTemperature(old(State()), BankId(cfg, v, b), t)
    {
      BankIdInRange(cfg, Place(v, b, 0));
      var id := BankId(cfg, v, b);
      phy := phy[id := phy[id].(temperature := t)];
    }

    method CombineWith(b: nat, t: nat)
      requires b < |banks| && t < |banks|
      modifies this
      ensures State() == Remapping.CombineWith(old(State()), b, t)
    {
      banks := banks[b := banks[b].(logical := banks[t].logical, valid := false, disabled := false, combined := true)];
      if banks[t].combined {
        errors := errors + 1;
      }
      if banks[t].remap != banks[t].physical {
        errors := errors + 1;
      }
      banks := banks[t := banks[t].(combined := true, remap := banks[b].physical)];
    }

    method ResetBank(b: nat)
      requires InTables(cfg.Total(), State()) && b < cfg.Total()
      modifies this
      ensures State() == Remapping.ResetBank(cfg, old(State()), b)
    {
      var s := banks[b];
      phy := phy[s.physical := phy[s.physical].(valid := true)];
      if cfg.policy == 0 {
        banks := banks[b := banks[b].(disabled := false)];
      } else if cfg.policy == 1 {
        banks := banks[b := banks[b].(logical := b, physical := b, disabled := false)];
        if b != s.logical {
          banks := banks[b := banks[b].(combined := false)];
          banks := banks[s.logical := banks[s.logical].(combined := false)];
          if banks[s.logical].remap != b {
            errors := errors + 1;
          }
          banks := banks[s.logical := banks[s.logical].(remap := banks[s.logical].physical)];
        } else if s.remap != b {
          banks := banks[s.remap := banks[s.remap].(disabled := false)];
        }
      } else if cfg.policy == 2 {
        banks := banks[b := banks[b].(disabled := false)];
      } else {
        errors := errors + 1;
      }
    }

    method ResetStats(reset: bool)
      requires Valid()
      modifies this
      ensures Valid() && State() == StatsTo(cfg, old(State()), reset, cfg.Total())
    {
      hide StatsStep, Paired;
      ghost var m := State();
      for b := 0 to cfg.Total()
        invariant State() == StatsTo(cfg, m, reset, b)
      {
        OneStat(reset, b);
      }
    }

    /** The body of the resetStats loop. */
    method OneStat(reset: bool, b: nat)
      requires InTables(cfg.Total(), State()) && b < cfg.Total()
      modifies this
      ensures State() == StatsStep(cfg, old(State()), reset, b)
    {
      hide Remapping.ResetBank;
      banks := banks[b := banks[b].(valid := true, validRows := {})];
      if reset && phy[banks[b].physical].temperature < cfg.high {
        ResetBank(b);
      }
    }

    /** The search loop: the coolest uncombined, enabled bank below the recovery threshold. */
    method SearchTarget(b: nat) returns (target: nat)
      requires cfg.Ok() && InTables(cfg.Total(), State()) && b < cfg.Total()
      ensures target == FindTarget(cfg, State(), b)
    {
      WindowInTable(cfg, b);
      target := b;
      var minTemp := 1000.0;
      for j := WindowStart(cfg, b) to WindowEnd(cfg, b)
        invariant (target, minTemp) == Coolest(cfg, State(), b, WindowStart(cfg, b), j)
      {
        var l := phy[j].logicalBank;
        if !banks[l].combined && !banks[l].disabled {
          if phy[j].temperature < cfg.remapT {
            if phy[j].temperature < minTemp {
              target := l;
              minTemp := phy[j].temperature;
            }
          }
        }
      }
    }

    /** The ids are those read before the recovery; they are still right for a bank that is combined and on. */
    method SwitchOff(b: nat, logical: nat, physical: nat)
      requires InTables(|banks|, State()) && b < |banks| && physical == b
      requires banks[b].combined && !banks[b].disabled ==> logical == banks[b].logical
      modifies this
      ensures State() == SwitchOff1(old(State()), b)
    {
      if !banks[b].disabled {
        if banks[b].combined {
          if logical == physical {
            var r := banks[b].remap;
            banks := banks[r := banks[r].(disabled := true)];
            banks := banks[b := banks[b].(disabled := true, valid := false)];
            phy := phy[physical := phy[physical].(valid := false)];
          }
        } else {
          banks := banks[b := banks[b].(disabled := true, valid := false)];
          phy := phy[physical := phy[physical].(valid := false)];
        }
      }
    }

    method Policy0(b: nat)
      requires InTables(cfg.Total(), State()) && b < cfg.Total() && cfg.policy == 0
      modifies this
      ensures State() == Step0(cfg, old(State()), b)
    {
      var t := phy[banks[b].physical].temperature;
      if t < cfg.remapT && banks[b].disabled {
        ResetBank(b);
      }
      if t >= cfg.high && !banks[b].disabled {
        banks := banks[b := banks[b].(disabled := true, valid := false)];
        phy := phy[b := phy[b].(valid := false)];
      }
    }

    /** A cooled bank that is away is brought back. */
    method Recover(b: nat, logical: nat, t: real)
      requires InTables(cfg.Total(), State()) && b < cfg.Total() && cfg.policy == 1
      requires logical == banks[b].logical && t == phy[b].temperature
      modifies this
      ensures State() == Recover1(cfg, old(State()), b)
    {
      if t < cfg.remapT && (logical != b || banks[b].disabled) {
        ResetBank(b);
      }
    }

    /** A hot bank on its own is combined with the coolest eligible one, if there is one. */
    method SeekPartner(b: nat, t: real) returns (found: bool)
      requires cfg.Ok() && InTables(cfg.Total(), State()) && b < cfg.Total() && t == phy[b].temperature
      modifies this
      ensures found <==> old(Seeks(cfg, State(), b) && FindTarget(cfg, State(), b) != b)
      ensures State() == if found then Combine1(cfg, old(State()), b) else old(State())
    {
      found := false;
      if t >= cfg.high && !banks[b].combined && !banks[b].disabled {
        var target := SearchTarget(b);
        if target != b {
          found := true;
          CombineWith(b, target);
          phy := phy[target := phy[target].(valid := false)];
        }
      }
    }

    method Policy1(b: nat)
      requires cfg.Ok() && Matching(cfg.Total(), State()) && b < cfg.Total() && cfg.policy == 1
      modifies this
      ensures State() == Step1(cfg, old(State()), b)
    {
      hide Paired, Recover1, Combine1, SwitchOff1, FindTarget;
      RecoverKeepsMatching(cfg, State(), b);
      RecoverKeepsIds(cfg, State(), b);
      var logical, physical := banks[b].logical, banks[b].physical;
      var t := phy[physical].temperature;
      Recover(b, logical, t);
      var found := SeekPartner(b, t);
      if t >= cfg.high && !found {
        SwitchOff(b, logical, physical);
      }
    }

    /** The body of the runMechanism loop. */
    method OneBank(b: nat)
      requires Valid() && b < cfg.Total()
      modifies this
      ensures State() == Step(cfg, old(State()), b)
    {
      if cfg.policy == 0 {
        Policy0(b);
      } else if cfg.policy == 1 {
        Policy1(b);
      } else if cfg.policy == 2 {
      } else {
        errors := errors + 1;
      }
    }

    /** runMechanism. */
    method RunMechanism()
      requires Valid()
      modifies this
      ensures Valid() && State() == Remapping.RunMechanism(cfg, old(State()))
    {
      hide Step, Paired;
      ghost var m := State();
      for b := 0 to cfg.Total()
        invariant State() == PassTo(cfg, m, b)
      {
        OneBank(b);
      }
    }

    function CheckValid(v: nat, b: nat): bool
      requires BankId(cfg, v, b) < |banks|
      reads this
    {
      banks[BankId(cfg, v, b)].valid
    }

    function CheckMigrated(v: nat, b: nat, r: nat): bool
      requires BankId(cfg, v, b) < |banks|
      reads this
    {
      !banks[BankId(cfg, v, b)].valid && r in banks[BankId(cfg, v, b)].validRows
    }

    function CheckDisabled(v: nat, b: nat): bool
      requires BankId(cfg, v, b) < |banks|
      reads this
    {
      banks[BankId(cfg, v, b)].disabled
    }
  }
}
