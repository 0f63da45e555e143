/** What a pass of the remapping mechanism guarantees about temperatures (performance_model/remapping.cc). */
module ThermalSafety {
  import opened Remapping

  /** The bank is on and stands for itself. */
  predicate Usable(m: Manager, b: nat)
    requires b < |m.banks|
  {
    !Away(m, b)
  }

  /** The temperature law: hot banks go, banks below the recovery threshold come back, others stay as they were. */
  predicate Hysteresis(cfg: Config, t: real, before: bool) {
    t < cfg.high && (t < cfg.remapT || before)
  }

  lemma Step0Law(cfg: Config, m: Manager, b: nat, k: nat)
    requires Inv(cfg, m) && b < cfg.Total() && k < cfg.Total() && cfg.policy == 0
    ensures Usable(Step0(cfg, m, b), k)
       <==> if k == b then Hysteresis(cfg, m.phy[b].temperature, Usable(m, b)) else Usable(m, k)
  {
    assert Paired(m, b);
  }

  lemma RecoverLaw(cfg: Config, m: Manager, b: nat, k: nat)
    requires Matching(cfg.Total(), m) && b < cfg.Total() && k < cfg.Total() && cfg.policy == 1
    ensures Usable(Recover1(cfg, m, b), k)
       <==> if k == b then m.phy[b].temperature < cfg.remapT || Usable(m, b) else Usable(m, k)
    ensures Recover1(cfg, m, b).phy[k].temperature == m.phy[k].temperature
  {
    assert Paired(m, b);
    assert Paired(m, m.banks[b].logical);
    assert Paired(m, m.banks[b].remap);
  }

  lemma CombineLaw(cfg: Config, m: Manager, b: nat, k: nat)
    requires cfg.Ok() && Matching(cfg.Total(), m) && b < cfg.Total() && k < cfg.Total()
    requires Seeks(cfg, m, b) && FindTarget(cfg, m, b) != b
    ensures Usable(Combine1(cfg, m, b), k) <==> k != b && Usable(m, k)
    ensures Combine1(cfg, m, b).phy[k].temperature == m.phy[k].temperature
  {
    assert Paired(m, b);
    assert Paired(m, FindTarget(cfg, m, b));
  }

  lemma SwitchOffLaw(n: nat, m: Manager, b: nat, k: nat)
    requires Matching(n, m) && b < n && k < n
    ensures Usable(SwitchOff1(m, b), k) <==> k != b && Usable(m, k)
    ensures SwitchOff1(m, b).phy[k].temperature == m.phy[k].temperature
  {
    assert Paired(m, b);
    assert Paired(m, m.banks[b].remap);
  }

  /** One iteration applies the law to its own bank and changes no other bank's usability. */
  lemma StepLaw(cfg: Config, m: Manager, b: nat, k: nat)
    requires cfg.Ok() && Inv(cfg, m) && b < cfg.Total() && k < cfg.Total() && cfg.policy <= 1
    ensures |Step(cfg, m, b).banks| == cfg.Total() == |Step(cfg, m, b).phy|
    ensures Usable(Step(cfg, m, b), k)
       <==> if k == b then Hysteresis(cfg, m.phy[b].temperature, Usable(m, b)) else Usable(m, k)
    ensures Step(cfg, m, b).phy[k].temperature == m.phy[k].temperature
  {
    hide Paired, Recover1, Combine1, SwitchOff1;
    StepKeepsInv(cfg, m, b);
    if cfg.policy == 0 {
      Step0Law(cfg, m, b, k);
    } else {
      RecoverKeepsMatching(cfg, m, b);
      RecoverLaw(cfg, m, b, k);
      RecoverLaw(cfg, m, b, b);
      var m1 := Recover1(cfg, m, b);
      if Seeks(cfg, m1, b) && FindTarget(cfg, m1, b) != b {
        CombineLaw(cfg, m1, b, k);
      } else {
        SwitchOffLaw(cfg.Total(), m1, b, k);
      }
    }
  }

  lemma {:induction false} PassToLaw(cfg: Config, m: Manager, i: nat, k: nat)
    requires cfg.Ok() && Inv(cfg, m) && i <= cfg.Total() && k < cfg.Total() && cfg.policy <= 1
    ensures Usable(PassTo(cfg, m, i), k)
       <==> if k < i then Hysteresis(cfg, m.phy[k].temperature, Usable(m, k)) else Usable(m, k)
    ensures PassTo(cfg, m, i).phy[k].temperature == m.phy[k].temperature
  {
    hide Step;
    if i != 0 {
      PassToLaw(cfg, m, i - 1, k);
      PassToLaw(cfg, m, i - 1, i - 1);
      StepLaw(cfg, PassTo(cfg, m, i - 1), i - 1, k);
    }
  }

  /** A whole pass, under policy 0 or 1, decides every bank by the law alone. */
  lemma PassLaw(cfg: Config, m: Manager, k: nat)
    requires cfg.Ok() && Inv(cfg, m) && k < cfg.Total() && cfg.policy <= 1
    ensures Usable(RunMechanism(cfg, m), k) <==> Hysteresis(cfg, m.phy[k].temperature, Usable(m, k))
    ensures RunMechanism(cfg, m).phy[k].temperature == m.phy[k].temperature
  {
    PassToLaw(cfg, m, cfg.Total(), k);
  }

  /** With unchanged temperatures a second pass decides as the first one did. */
  lemma SecondPassAgrees(cfg: Config, m: Manager, k: nat)
    requires cfg.Ok() && Inv(cfg, m) && k < cfg.Total() && cfg.policy <= 1
    ensures Usable(RunMechanism(cfg, RunMechanism(cfg, m)), k) == Usable(RunMechanism(cfg, m), k)
  {
    hide RunMechanism;
    PassLaw(cfg, m, k);
    PassLaw(cfg, RunMechanism(cfg, m), k);
  }

  /** Every bank a request may be routed to is below the high threshold. */
  ghost predicate Safe(cfg: Config, m: Manager) {
    && InTables(cfg.Total(), m)
    && forall b: nat | b < cfg.Total() && !m.banks[b].disabled ::
         var l := m.banks[b].logical;
         !m.banks[l].disabled && m.banks[l].logical == l && m.phy[l].temperature < cfg.high
  }

  /** An enabled bank's logical bank is enabled and stands for itself, whatever the temperatures. */
  lemma LogicalIsUsable(n: nat, m: Manager, b: nat)
    requires Matching(n, m) && b < n && !m.banks[b].disabled
    ensures Usable(m, m.banks[b].logical)
  {
    assert Paired(m, b);
  }

  /** Thermal routing safety after every pass, under any temperatures and any thresholds. */
  lemma PassIsSafe(cfg: Config, m: Manager)
    requires cfg.Ok() && Inv(cfg, m) && cfg.policy <= 1
    ensures Safe(cfg, RunMechanism(cfg, m))
  {
    var r := RunMechanism(cfg, m);
    forall b: nat | b < cfg.Total() && !r.banks[b].disabled
      ensures var l := r.banks[b].logical;
              !r.banks[l].disabled && r.banks[l].logical == l && r.phy[l].temperature < cfg.high
    {
      LogicalIsUsable(cfg.Total(), r, b);
      PassLaw(cfg, m, r.banks[b].logical);
    }
  }

  /** Recovery: a bank below the recovery threshold is back after the pass exactly when it is below the high one. */
  lemma PassRecovers(cfg: Config, m: Manager, k: nat)
    requires cfg.Ok() && Inv(cfg, m) && k < cfg.Total() && cfg.policy <= 1
    requires m.phy[k].temperature < cfg.remapT
    ensures Usable(RunMechanism(cfg, m), k) <==> m.phy[k].temperature < cfg.high
  {
    PassLaw(cfg, m, k);
  }

  lemma {:induction false} OtherPolicyTo(cfg: Config, m: Manager, i: nat)
    requires cfg.Ok() && Inv(cfg, m) && cfg.policy >= 2 && i <= cfg.Total()
    ensures PassTo(cfg, m, i).banks == m.banks && PassTo(cfg, m, i).phy == m.phy
    ensures PassTo(cfg, m, i).errors == m.errors + if cfg.policy == 2 then 0 else i
  {
    if i != 0 { OtherPolicyTo(cfg, m, i - 1); }
  }

  /** The other policies protect nothing: they are safe exactly when every usable bank is cool anyway. */
  lemma OtherPolicies(cfg: Config, m: Manager)
    requires cfg.Ok() && Inv(cfg, m) && cfg.policy >= 2
    ensures Safe(cfg, RunMechanism(cfg, m))
       <==> forall b: nat | b < cfg.Total() && Usable(m, b) :: m.phy[b].temperature < cfg.high
  {
    OtherPolicyTo(cfg, m, cfg.Total());
    var r := RunMechanism(cfg, m);
    forall b: nat | b < cfg.Total() ensures r.banks[b].logical == b {
      assert Paired(r, b);
    }
  }

  /** Under policies 0 to 2 a pass prints no "[Error]" line. */
  lemma {:induction false} PassIsQuiet(cfg: Config, m: Manager, i: nat)
    requires cfg.Ok() && Inv(cfg, m) && cfg.policy <= 2 && i <= cfg.Total()
    ensures PassTo(cfg, m, i).errors == m.errors
  {
    hide Step;
    if i != 0 {
      PassIsQuiet(cfg, m, i - 1);
      StepKeepsInv(cfg, PassTo(cfg, m, i - 1), i - 1);
    }
  }
}
