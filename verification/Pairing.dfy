/** Which banks a pass pairs, with whom, and when it changes nothing (performance_model/remapping.cc). */
module Pairing {
  import opened Remapping
  import opened ThermalSafety

  // ----- The tables when a bank's turn comes, told without the operations -----

  /** The turn of bank `b` begins by bringing it back. */
  predicate Recovers(cfg: Config, m: Manager, b: nat)
    requires InTables(cfg.Total(), m) && b < cfg.Total()
  {
    m.phy[b].temperature < cfg.remapT && Away(m, b)
  }

  /** Bank `k` is in a pair, which the return of `b` does not dissolve. */
  predicate Tied(cfg: Config, m: Manager, b: nat, k: nat)
    requires InTables(cfg.Total(), m) && b < cfg.Total() && k < cfg.Total()
  {
    m.banks[k].combined && !(Recovers(cfg, m, b) && m.banks[b].logical != b && (k == b || k == m.banks[b].logical))
  }

  /** Bank `k` is off, and does not come back with `b`. */
  predicate Off(cfg: Config, m: Manager, b: nat, k: nat)
    requires InTables(cfg.Total(), m) && b < cfg.Total() && k < cfg.Total()
  {
    m.banks[k].disabled
    && !(Recovers(cfg, m, b) && (k == b || (m.banks[b].logical == b && k == m.banks[b].remap)))
  }

  /** The entry of bank `k` once `b` is back, if it comes back. */
  function Entry(cfg: Config, m: Manager, b: nat, k: nat): BankStat
    requires InTables(cfg.Total(), m) && b < cfg.Total() && k < cfg.Total()
  {
    var alone := m.banks[k].combined && !Tied(cfg, m, b, k);
    m.banks[k].(
      logical := if alone then k else m.banks[k].logical,
      remap := if alone then k else m.banks[k].remap,
      combined := Tied(cfg, m, b, k),
      disabled := Off(cfg, m, b, k))
  }

  predicate Hot(cfg: Config, m: Manager, b: nat)
    requires InTables(cfg.Total(), m) && b < cfg.Total()
  {
    m.phy[b].temperature >= cfg.high
  }

  /** A bank that `b` may move in with. */
  predicate Candidate(cfg: Config, m: Manager, b: nat, j: nat)
    requires InTables(cfg.Total(), m) && cfg.Ok() && b < cfg.Total() && j < cfg.Total()
  {
    && (cfg.interVault || b / cfg.banks <= j < b / cfg.banks + cfg.banks)
    && !Tied(cfg, m, b, j) && !Off(cfg, m, b, j)
    && m.phy[j].temperature < cfg.remapT && m.phy[j].temperature < 1000.0
  }

  /** The first of the coolest candidates. */
  ghost predicate Partner(cfg: Config, m: Manager, b: nat, j: nat)
    requires InTables(cfg.Total(), m) && cfg.Ok() && b < cfg.Total()
  {
    && j < cfg.Total() && Candidate(cfg, m, b, j)
    && forall i: nat | i < cfg.Total() && Candidate(cfg, m, b, i) ::
         m.phy[j].temperature <= m.phy[i].temperature && (i < j ==> m.phy[j].temperature < m.phy[i].temperature)
  }

  /** A hot bank that is on, not in a pair, and has a partner other than itself. */
  ghost predicate Pairs(cfg: Config, m: Manager, b: nat, j: nat)
    requires InTables(cfg.Total(), m) && cfg.Ok() && b < cfg.Total()
  {
    Hot(cfg, m, b) && !Tied(cfg, m, b, b) && !Off(cfg, m, b, b) && Partner(cfg, m, b, j) && j != b
  }

  /** A hot bank that is on, not in a pair, and has no partner other than itself. */
  ghost predicate Unpaired(cfg: Config, m: Manager, b: nat)
    requires InTables(cfg.Total(), m) && cfg.Ok() && b < cfg.Total()
  {
    Hot(cfg, m, b) && !Tied(cfg, m, b, b) && !Off(cfg, m, b, b) && forall j: nat :: !Pairs(cfg, m, b, j)
  }

  /** A hot bank that is on, speaks for itself and finds nobody. */
  ghost predicate Leaves(cfg: Config, m: Manager, b: nat)
    requires InTables(cfg.Total(), m) && cfg.Ok() && b < cfg.Total()
  {
    && Hot(cfg, m, b) && !Off(cfg, m, b, b) && Entry(cfg, m, b, b).logical == b
    && forall j: nat :: !Pairs(cfg, m, b, j)
  }

  /** The entry of bank `k` after `b` has moved in with `j`: nobody is switched off. */
  function JoinedEntry(cfg: Config, m: Manager, b: nat, j: nat, k: nat): BankStat
    requires InTables(cfg.Total(), m) && b < cfg.Total() && k < cfg.Total()
  {
    var e := Entry(cfg, m, b, k);
    if k == b then e.(logical := j, combined := true, valid := false)
    else if k == j then e.(remap := b, combined := true)
    else e
  }

  /** The entry of bank `k` after `b` has left, with the bank that had moved in with it. */
  function LeftEntry(cfg: Config, m: Manager, b: nat, k: nat): BankStat
    requires InTables(cfg.Total(), m) && b < cfg.Total() && k < cfg.Total()
  {
    var e := Entry(cfg, m, b, k);
    if k == b then e.(disabled := true, valid := false)
    else if k == Entry(cfg, m, b, b).remap then e.(disabled := true)
    else e
  }

  // ----- One iteration -----

  lemma RecoverIs(cfg: Config, m: Manager, b: nat, k: nat)
    requires Matching(cfg.Total(), m) && b < cfg.Total() && k < cfg.Total() && cfg.policy == 1
    ensures Matching(cfg.Total(), Recover1(cfg, m, b))
    ensures Recover1(cfg, m, b).banks[k] == Entry(cfg, m, b, k)
    ensures Recover1(cfg, m, b).phy[k] == m.phy[k].(valid := m.phy[k].valid || (k == b && Recovers(cfg, m, b)))
  {
    RecoverKeepsMatching(cfg, m, b);
    if Recovers(cfg, m, b) { ResetIs(cfg, m, b, k); }
  }

  lemma ResetIs(cfg: Config, m: Manager, b: nat, k: nat)
    requires Matching(cfg.Total(), m) && b < cfg.Total() && k < cfg.Total() && cfg.policy == 1 && Recovers(cfg, m, b)
    ensures Matching(cfg.Total(), ResetBank(cfg, m, b))
    ensures ResetBank(cfg, m, b).banks[k] == Entry(cfg, m, b, k)
    ensures ResetBank(cfg, m, b).phy[k] == m.phy[k].(valid := m.phy[k].valid || k == b)
  {
    ResetKeepsMatching(cfg, m, b);
    assert Paired(m, b);
    assert Paired(m, m.banks[b].logical);
  }

  lemma CandidateIs(cfg: Config, m: Manager, b: nat, j: nat)
    requires cfg.Ok() && Matching(cfg.Total(), m) && b < cfg.Total() && j < cfg.Total() && cfg.policy == 1
    ensures Matching(cfg.Total(), Recover1(cfg, m, b))
    ensures Candidate(cfg, m, b, j)
       <==> && Eligible(cfg, Recover1(cfg, m, b), j) && m.phy[j].temperature < 1000.0
            && WindowStart(cfg, b) <= j < WindowEnd(cfg, b)
  {
    hide Paired, Recover1;
    RecoverIs(cfg, m, b, j);
  }

  /** The search finds the partner, and itself when there is no candidate. */
  lemma TargetIsPartner(cfg: Config, m: Manager, b: nat)
    requires cfg.Ok() && Matching(cfg.Total(), m) && b < cfg.Total() && cfg.policy == 1
    ensures Matching(cfg.Total(), Recover1(cfg, m, b))
    ensures var t := FindTarget(cfg, Recover1(cfg, m, b), b);
            Partner(cfg, m, b, t) || (t == b && forall i: nat | i < cfg.Total() :: !Candidate(cfg, m, b, i))
  {
    hide Paired, Recover1, Coolest, Candidate, Eligible;
    var m1 := Recover1(cfg, m, b);
    RecoverKeepsMatching(cfg, m, b);
    WindowInTable(cfg, b);
    var (t, x) := Coolest(cfg, m1, b, WindowStart(cfg, b), WindowEnd(cfg, b));
    forall i: nat | i < cfg.Total()
      ensures m1.phy[i].temperature == m.phy[i].temperature
      ensures Candidate(cfg, m, b, i)
         <==> && Eligible(cfg, m1, i) && m.phy[i].temperature < 1000.0
              && WindowStart(cfg, b) <= i < WindowEnd(cfg, b)
    {
      RecoverIs(cfg, m, b, i);
      CandidateIs(cfg, m, b, i);
    }
  }

  lemma PartnerUnique(cfg: Config, m: Manager, b: nat, i: nat, j: nat)
    requires InTables(cfg.Total(), m) && cfg.Ok() && b < cfg.Total()
    requires Partner(cfg, m, b, i) && Partner(cfg, m, b, j)
    ensures i == j
  {
    hide Candidate;
  }

  lemma CombineIs(cfg: Config, m: Manager, b: nat, k: nat)
    requires cfg.Ok() && Matching(cfg.Total(), m) && b < cfg.Total() && k < cfg.Total()
    requires Seeks(cfg, m, b) && FindTarget(cfg, m, b) != b
    ensures var t := FindTarget(cfg, m, b);
            Combine1(cfg, m, b).banks[k] ==
              if k == b then m.banks[b].(logical := t, combined := true, valid := false)
              else if k == t then m.banks[t].(remap := b, combined := true)
              else m.banks[k]
    ensures Combine1(cfg, m, b).phy[k] == m.phy[k].(valid := m.phy[k].valid && k != FindTarget(cfg, m, b))
  {
    hide FindTarget;
    assert Paired(m, FindTarget(cfg, m, b));
  }

  lemma SwitchOffIs(n: nat, m: Manager, b: nat, k: nat)
    requires Matching(n, m) && b < n && k < n
    ensures SwitchOff1(m, b).banks[k] ==
      if m.banks[b].disabled || m.banks[b].logical != b then m.banks[k]
      else if k == b then m.banks[b].(disabled := true, valid := false)
      else if k == m.banks[b].remap then m.banks[k].(disabled := true)
      else m.banks[k]
    ensures SwitchOff1(m, b).phy[k] ==
      m.phy[k].(valid := m.phy[k].valid && (k != b || m.banks[b].disabled || m.banks[b].logical != b))
  {
    assert Paired(m, b);
  }

  /** Whether a bank pairs is whether it seeks and the search names another bank. */
  lemma PairsIs(cfg: Config, m: Manager, b: nat, j: nat)
    requires cfg.Ok() && Matching(cfg.Total(), m) && b < cfg.Total() && cfg.policy == 1
    ensures Matching(cfg.Total(), Recover1(cfg, m, b))
    ensures var m1 := Recover1(cfg, m, b);
            Pairs(cfg, m, b, j) <==> Seeks(cfg, m1, b) && j == FindTarget(cfg, m1, b) && j != b
  {
    hide Paired, Recover1, FindTarget, Candidate;
    RecoverIs(cfg, m, b, b);
    TargetIsPartner(cfg, m, b);
    var t := FindTarget(cfg, Recover1(cfg, m, b), b);
    if Partner(cfg, m, b, j) && Partner(cfg, m, b, t) {
      PartnerUnique(cfg, m, b, j, t);
    }
  }

  /** One turn: a hot bank that is on and alone moves in with the first coolest candidate, or leaves without one. */
  lemma TurnLaw(cfg: Config, m: Manager, b: nat, k: nat)
    requires cfg.Ok() && Inv(cfg, m) && b < cfg.Total() && k < cfg.Total() && cfg.policy == 1
    ensures Inv(cfg, Step(cfg, m, b))
    ensures Step(cfg, m, b).phy[k] == m.phy[k].(valid :=
              && (m.phy[k].valid || (k == b && Recovers(cfg, m, b)))
              && !Pairs(cfg, m, b, k) && !(k == b && Leaves(cfg, m, b)))
    ensures forall j: nat | Pairs(cfg, m, b, j) :: Step(cfg, m, b).banks[k] == JoinedEntry(cfg, m, b, j, k)
    ensures (forall j: nat :: !Pairs(cfg, m, b, j)) ==>
      Step(cfg, m, b).banks[k] == if Leaves(cfg, m, b) then LeftEntry(cfg, m, b, k) else Entry(cfg, m, b, k)
  {
    hide Paired, Recover1, Combine1, SwitchOff1, FindTarget, Pairs, Entry;
    StepKeepsInv(cfg, m, b);
    StepLaw(cfg, m, b, k);
    RecoverIs(cfg, m, b, k);
    RecoverIs(cfg, m, b, b);
    var m1 := Recover1(cfg, m, b);
    var t := FindTarget(cfg, m1, b);
    forall j: nat ensures Pairs(cfg, m, b, j) <==> Seeks(cfg, m1, b) && j == t && j != b { PairsIs(cfg, m, b, j); }
    if Seeks(cfg, m1, b) && t != b {
      CombineIs(cfg, m1, b, k);
      assert Pairs(cfg, m, b, t);
    } else {
      SwitchOffIs(cfg.Total(), m1, b, k);
      EntryFlags(cfg, m, b);
    }
  }

  lemma EntryFlags(cfg: Config, m: Manager, b: nat)
    requires InTables(cfg.Total(), m) && b < cfg.Total()
    ensures var e := Entry(cfg, m, b, b);
            e.combined == Tied(cfg, m, b, b) && e.disabled == Off(cfg, m, b, b) && e.remap < cfg.Total()
  {
  }

  /**
   The turn of a hot bank that is on and alone. Either some candidate exists and the first coolest one is another
   bank: `b` moves in there, stays on, and nobody is switched off. Or `b` is switched off and stays alone.
   */
  lemma PairingLaw(cfg: Config, m: Manager, b: nat) returns (j: nat)
    requires cfg.Ok() && Inv(cfg, m) && b < cfg.Total() && cfg.policy == 1
    requires Hot(cfg, m, b) && !Tied(cfg, m, b, b) && !Off(cfg, m, b, b)
    ensures Inv(cfg, Step(cfg, m, b))
    ensures Pairs(cfg, m, b, j)
       <==> (exists i: nat :: i < cfg.Total() && Candidate(cfg, m, b, i)) && !Partner(cfg, m, b, b)
    ensures m.phy[b].temperature >= cfg.remapT ==> !Partner(cfg, m, b, b)
    ensures Pairs(cfg, m, b, j) ==>
      var r := Step(cfg, m, b).banks;
      && r[b].combined && !r[b].disabled && r[b].logical == j && r[j].combined && r[j].remap == b
      && forall k: nat | k < cfg.Total() :: r[k].disabled == Off(cfg, m, b, k)
    ensures !Pairs(cfg, m, b, j) ==>
      var r := Step(cfg, m, b).banks;
      && r[b].disabled && !r[b].combined
      && forall k: nat | k < cfg.Total() && k != b :: r[k] == Entry(cfg, m, b, k)
  {
    hide Paired, Step, Pairs, Partner, Candidate, Tied, Off, Entry;
    j := Choice(cfg, m, b);
    if Pairs(cfg, m, b, j) {
      JoinedMeans(cfg, m, b, j);
    } else {
      LeftMeans(cfg, m, b);
    }
  }

  /** The partner, if there is one other than `b` itself. */
  lemma Choice(cfg: Config, m: Manager, b: nat) returns (j: nat)
    requires cfg.Ok() && Matching(cfg.Total(), m) && b < cfg.Total() && cfg.policy == 1
    requires Hot(cfg, m, b) && !Tied(cfg, m, b, b) && !Off(cfg, m, b, b)
    ensures Pairs(cfg, m, b, j)
       <==> (exists i: nat :: i < cfg.Total() && Candidate(cfg, m, b, i)) && !Partner(cfg, m, b, b)
    ensures m.phy[b].temperature >= cfg.remapT ==> !Partner(cfg, m, b, b)
    ensures forall i: nat | Pairs(cfg, m, b, i) :: i == j
  {
    hide Paired, Recover1, FindTarget, Tied, Off;
    RecoverKeepsMatching(cfg, m, b);
    j := FindTarget(cfg, Recover1(cfg, m, b), b);
    TargetIsPartner(cfg, m, b);
    forall i: nat | Pairs(cfg, m, b, i) ensures i == j { PairsIs(cfg, m, b, i); }
  }

  lemma JoinedMeans(cfg: Config, m: Manager, b: nat, j: nat)
    requires cfg.Ok() && Inv(cfg, m) && b < cfg.Total() && cfg.policy == 1 && Pairs(cfg, m, b, j)
    ensures Inv(cfg, Step(cfg, m, b)) && j < cfg.Total()
    ensures var r := Step(cfg, m, b).banks;
      && r[b].combined && !r[b].disabled && r[b].logical == j && r[j].combined && r[j].remap == b
      && forall k: nat | k < cfg.Total() :: r[k].disabled == Off(cfg, m, b, k)
  {
    hide Paired, Step, Candidate, Off, Tied;
    StepKeepsInv(cfg, m, b);
    forall k: nat | k < cfg.Total() ensures Step(cfg, m, b).banks[k] == JoinedEntry(cfg, m, b, j, k) {
      TurnLaw(cfg, m, b, k);
    }
  }

  lemma LeftMeans(cfg: Config, m: Manager, b: nat)
    requires cfg.Ok() && Inv(cfg, m) && b < cfg.Total() && cfg.policy == 1
    requires Unpaired(cfg, m, b)
    ensures Inv(cfg, Step(cfg, m, b))
    ensures var r := Step(cfg, m, b).banks;
      && r[b].disabled && !r[b].combined
      && forall k: nat | k < cfg.Total() && k != b :: r[k] == Entry(cfg, m, b, k)
  {
    hide Paired, Step, Pairs, Off, Tied;
    AloneEntry(cfg, m, b);
    StepKeepsInv(cfg, m, b);
    forall k: nat | k < cfg.Total() ensures Step(cfg, m, b).banks[k] == LeftEntry(cfg, m, b, k) {
      TurnLaw(cfg, m, b, k);
    }
  }

  lemma AloneEntry(cfg: Config, m: Manager, b: nat)
    requires Matching(cfg.Total(), m) && b < cfg.Total() && !Tied(cfg, m, b, b)
    ensures Entry(cfg, m, b, b).logical == b && Entry(cfg, m, b, b).remap == b
  {
    assert Paired(m, b);
  }

  // ----- A whole pass -----

  /** Bank `b` has moved in with bank `j`. */
  ghost predicate Lodges(m: Manager, b: nat, j: nat)
    requires b < |m.banks| && j < |m.banks|
  {
    && b != j && m.banks[b].combined && m.banks[b].logical == j
    && m.banks[j].combined && m.banks[j].logical == j && m.banks[j].remap == b
  }

  /** The turns of other banks keep a pair; only the turn of a hot host switches it off. */
  lemma TurnKeepsPair(cfg: Config, m: Manager, b: nat, j: nat, i: nat)
    requires cfg.Ok() && Inv(cfg, m) && b < cfg.Total() && j < cfg.Total() && i < cfg.Total() && cfg.policy == 1
    requires Lodges(m, b, j) && i != b && (i == j ==> !m.banks[j].disabled)
    ensures Inv(cfg, Step(cfg, m, i)) && Lodges(Step(cfg, m, i), b, j)
    ensures Step(cfg, m, i).banks[j].disabled == if i == j then Hot(cfg, m, j) else m.banks[j].disabled
  {
    hide Step, Paired;
    OthersApart(cfg, m, b, j, i);
    TurnLaw(cfg, m, i, b);
    TurnLaw(cfg, m, i, j);
    forall t: nat ensures !(Pairs(cfg, m, i, t) && (t == b || t == j || i == j)) {
    }
  }

  /** A bank outside a pair has nothing to do with its members. */
  lemma OthersApart(cfg: Config, m: Manager, b: nat, j: nat, i: nat)
    requires cfg.Ok() && Inv(cfg, m) && b < cfg.Total() && j < cfg.Total() && i < cfg.Total()
    requires Lodges(m, b, j) && i != b && (i == j ==> !m.banks[j].disabled)
    ensures Entry(cfg, m, i, b) == m.banks[b] && Entry(cfg, m, i, j) == m.banks[j]
    ensures i != j ==> Entry(cfg, m, i, i).remap != b && Entry(cfg, m, i, i).remap != j
  {
    assert Paired(m, i);
    assert Paired(m, b);
  }

  lemma {:induction false} PassKeepsPair(cfg: Config, m: Manager, b: nat, j: nat, i: nat)
    requires cfg.Ok() && Inv(cfg, m) && b < i <= cfg.Total() && j < cfg.Total() && cfg.policy == 1
    ensures Lodges(PassTo(cfg, m, b + 1), b, j) && !PassTo(cfg, m, b + 1).banks[j].disabled ==>
      && Lodges(PassTo(cfg, m, i), b, j)
      && (PassTo(cfg, m, i).banks[j].disabled <==> b < j < i && Hot(cfg, m, j))
    decreases i
  {
    hide Step, Paired, Lodges;
    if i > b + 1 && Lodges(PassTo(cfg, m, b + 1), b, j) && !PassTo(cfg, m, b + 1).banks[j].disabled {
      PassKeepsPair(cfg, m, b, j, i - 1);
      PassToLaw(cfg, m, i - 1, j);
      TurnKeepsPair(cfg, PassTo(cfg, m, i - 1), b, j, i - 1);
    }
  }

  /** The turns of other banks leave a bank alone that is off and in no pair. */
  lemma TurnKeepsOff(cfg: Config, m: Manager, b: nat, i: nat)
    requires cfg.Ok() && Inv(cfg, m) && b < cfg.Total() && i < cfg.Total() && i != b && cfg.policy == 1
    requires m.banks[b].disabled && !m.banks[b].combined
    ensures Inv(cfg, Step(cfg, m, i)) && Step(cfg, m, i).banks[b] == m.banks[b]
  {
    hide Step;
    assert Paired(m, i);
    TurnLaw(cfg, m, i, b);
    forall t: nat ensures !(Pairs(cfg, m, i, t) && t == b) {
    }
  }

  lemma {:induction false} PassKeepsOff(cfg: Config, m: Manager, b: nat, i: nat)
    requires cfg.Ok() && Inv(cfg, m) && b < i <= cfg.Total() && cfg.policy == 1
    ensures var q := PassTo(cfg, m, b + 1);
      q.banks[b].disabled && !q.banks[b].combined ==> PassTo(cfg, m, i).banks[b] == q.banks[b]
    decreases i
  {
    hide Step, Paired;
    var q := PassTo(cfg, m, b + 1);
    if i > b + 1 && q.banks[b].disabled && !q.banks[b].combined {
      PassKeepsOff(cfg, m, b, i - 1);
      TurnKeepsOff(cfg, PassTo(cfg, m, i - 1), b, i - 1);
    }
  }

  /** A bank chosen as partner that has had its turn is below the high threshold. */
  lemma PartnerPassed(cfg: Config, m: Manager, b: nat, j: nat)
    requires cfg.Ok() && Inv(cfg, m) && b < cfg.Total() && cfg.policy == 1 && j < b
    ensures Pairs(cfg, PassTo(cfg, m, b), b, j) ==> !Hot(cfg, m, j)
  {
    var q := PassTo(cfg, m, b);
    assert Paired(q, j) && Paired(q, b);
    PassToLaw(cfg, m, b, j);
  }

  /**
   Pairing over a pass, whatever the thresholds. If bank `b` was hot, on and alone when its turn came, it ends the pass
   in the pair it formed then, which is on exactly when its host is below the high threshold; without a
   partner it ends the pass off and alone.
   */
  lemma PassPairs(cfg: Config, m: Manager, b: nat, j: nat)
    requires cfg.Ok() && Inv(cfg, m) && b < cfg.Total() && cfg.policy == 1
    ensures Pairs(cfg, PassTo(cfg, m, b), b, j) ==>
      var r := RunMechanism(cfg, m);
      && j < cfg.Total() && Lodges(r, b, j)
      && (r.banks[b].disabled <==> Hot(cfg, m, j)) && (r.banks[j].disabled <==> Hot(cfg, m, j))
    ensures Unpaired(cfg, PassTo(cfg, m, b), b) ==>
      RunMechanism(cfg, m).banks[b].disabled && !RunMechanism(cfg, m).banks[b].combined
  {
    hide Step, Paired, Pairs, Tied, Off, Entry;
    var q := PassTo(cfg, m, b);
    if Pairs(cfg, q, b, j) {
      JoinedMeans(cfg, q, b, j);
      PairIsLodging(cfg, q, b, j);
      PassKeepsPair(cfg, m, b, j, cfg.Total());
      PassEndsPair(cfg, m, b, j);
    } else if Unpaired(cfg, q, b) {
      LeftMeans(cfg, q, b);
      PassKeepsOff(cfg, m, b, cfg.Total());
    }
  }

  lemma PairIsLodging(cfg: Config, m: Manager, b: nat, j: nat)
    requires cfg.Ok() && Inv(cfg, m) && b < cfg.Total() && cfg.policy == 1 && Pairs(cfg, m, b, j)
    ensures Inv(cfg, Step(cfg, m, b)) && j < cfg.Total()
    ensures Lodges(Step(cfg, m, b), b, j) && !Step(cfg, m, b).banks[j].disabled
  {
    hide Step, Candidate, Off, Tied;
    JoinedMeans(cfg, m, b, j);
    assert Paired(Step(cfg, m, b), b);
  }

  lemma PassEndsPair(cfg: Config, m: Manager, b: nat, j: nat)
    requires cfg.Ok() && Inv(cfg, m) && b < cfg.Total() && j < cfg.Total() && cfg.policy == 1
    ensures var r := RunMechanism(cfg, m);
      && Pairs(cfg, PassTo(cfg, m, b), b, j) && Lodges(r, b, j)
      && (r.banks[j].disabled <==> b < j && Hot(cfg, m, j)) ==>
        (r.banks[b].disabled <==> Hot(cfg, m, j)) && (r.banks[j].disabled <==> Hot(cfg, m, j))
  {
    hide PassTo, Partner, Tied, Off;
    assert Paired(RunMechanism(cfg, m), b);
    if j < b { PartnerPassed(cfg, m, b, j); }
  }

  // ----- Validity flags -----

  /** The turn of `b` takes the flag of a hot bank that is usable or has just come back, and no other flag. */
  lemma TurnFlags(cfg: Config, m: Manager, b: nat, k: nat)
    requires cfg.Ok() && Inv(cfg, m) && b < cfg.Total() && k < cfg.Total() && cfg.policy <= 1
    ensures Inv(cfg, Step(cfg, m, b))
    ensures Step(cfg, m, b).banks[k].valid
       <==> m.banks[k].valid && !(k == b && Hot(cfg, m, b) && (Usable(m, b) || m.phy[b].temperature < cfg.remapT))
  {
    hide Step1;
    StepKeepsInv(cfg, m, b);
    assert Paired(m, b);
    if cfg.policy == 1 {
      TurnLaw(cfg, m, b, k);
      if j: nat :| Pairs(cfg, m, b, j) {
        AloneEntry(cfg, m, b);
      }
    }
  }

  lemma {:induction false} PassFlagsTo(cfg: Config, m: Manager, i: nat, k: nat)
    requires cfg.Ok() && Inv(cfg, m) && i <= cfg.Total() && k < cfg.Total() && cfg.policy <= 1
    ensures PassTo(cfg, m, i).banks[k].valid
       <==> m.banks[k].valid && !(k < i && Hot(cfg, m, k) && (Usable(m, k) || m.phy[k].temperature < cfg.remapT))
  {
    hide Step, Paired;
    if i != 0 {
      PassFlagsTo(cfg, m, i - 1, k);
      PassToLaw(cfg, m, i - 1, i - 1);
      TurnFlags(cfg, PassTo(cfg, m, i - 1), i - 1, k);
    }
  }

  /** A pass clears exactly the flags of the hot banks that were usable or below the recovery threshold. */
  lemma PassFlags(cfg: Config, m: Manager, k: nat)
    requires cfg.Ok() && Inv(cfg, m) && k < cfg.Total()
    ensures var r := RunMechanism(cfg, m);
      var taken := cfg.policy <= 1 && Hot(cfg, m, k) && (Usable(m, k) || m.phy[k].temperature < cfg.remapT);
      && (r.banks[k].valid <==> m.banks[k].valid && !taken)
      && (Away(r, k) && r.banks[k].valid ==> Away(m, k))
  {
    hide PassTo;
    if cfg.policy <= 1 {
      PassFlagsTo(cfg, m, cfg.Total(), k);
      PassLaw(cfg, m, k);
    } else {
      OtherPolicyTo(cfg, m, cfg.Total());
    }
  }

  // ----- A pass that changes nothing -----

  /** Every bank below the recovery threshold is usable, and no hot one is. */
  ghost predicate Rests(cfg: Config, m: Manager) {
    && InTables(cfg.Total(), m)
    && forall b: nat | b < cfg.Total() :: RestsAt(cfg, m, b)
  }

  predicate RestsAt(cfg: Config, m: Manager, b: nat)
    requires InTables(cfg.Total(), m) && b < cfg.Total()
  {
    (m.phy[b].temperature < cfg.remapT ==> Usable(m, b)) && (Hot(cfg, m, b) ==> !Usable(m, b))
  }

  lemma RestTurn(cfg: Config, m: Manager, b: nat)
    requires cfg.Ok() && Inv(cfg, m) && b < cfg.Total() && cfg.policy <= 1 && Rests(cfg, m)
    ensures Step(cfg, m, b) == m
  {
    assert RestsAt(cfg, m, b);
    assert Paired(m, b);
  }

  lemma {:induction false} RestTo(cfg: Config, m: Manager, i: nat)
    requires cfg.Ok() && Inv(cfg, m) && i <= cfg.Total() && cfg.policy <= 1 && Rests(cfg, m)
    ensures PassTo(cfg, m, i) == m
  {
    hide Step, Paired, Rests;
    if i != 0 {
      RestTo(cfg, m, i - 1);
      RestTurn(cfg, m, i - 1);
    }
  }

  /** A second pass changes nothing at all, if no bank is both hot and below the recovery threshold. */
  lemma PassIdempotent(cfg: Config, m: Manager)
    requires cfg.Ok() && Inv(cfg, m) && cfg.policy <= 1
    requires forall b: nat | b < cfg.Total() && m.phy[b].temperature < cfg.remapT :: !Hot(cfg, m, b)
    ensures Rests(cfg, RunMechanism(cfg, m))
    ensures RunMechanism(cfg, RunMechanism(cfg, m)) == RunMechanism(cfg, m)
  {
    var r := RunMechanism(cfg, m);
    forall b: nat | b < cfg.Total() ensures RestsAt(cfg, r, b) { PassLaw(cfg, m, b); }
    RestTo(cfg, r, cfg.Total());
  }

  /** Two banks at 90 and 60 degrees: the hot one moves in with the other and stays on. */
  lemma PairingExample()
    ensures var cfg := Config(1, 2, 1, 1, true, 85.0, 80.0);
      var m := UpdateTemperature(UpdateTemperature(InitialManager(2), 0, 90.0), 1, 60.0);
      && Inv(cfg, m) && Pairs(cfg, m, 0, 1)
      && Lodges(RunMechanism(cfg, m), 0, 1) && !RunMechanism(cfg, m).banks[0].disabled
  {
    var cfg := Config(1, 2, 1, 1, true, 85.0, 80.0);
    var m := UpdateTemperature(UpdateTemperature(InitialManager(2), 0, 90.0), 1, 60.0);
    assert Paired(m, 0) && Paired(m, 1);
    assert Pairs(cfg, m, 0, 1);
    assert PassTo(cfg, m, 0) == m;
    PassPairs(cfg, m, 0, 1);
  }
}
