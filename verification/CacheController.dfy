/** The controller as an object, against the value model (performance_model/dram_perf_model_normal.cc). */
module CacheController {
  import opened Bits
  import opened Options
  import opened Remapping
  import opened ThermalSafety
  import opened Geometry
  import opened DramCache
  import opened ThermalCache
  import opened RemapManager
  import PageTable

  // ----- Progress of the sweep -----

  /** Place `p` comes before (v, b, r) in the order of the three loops. */
  predicate Visited(p: Place, v: nat, b: nat, r: nat) {
    p.vault < v || (p.vault == v && (p.bank < b || (p.bank == b && p.row < r)))
  }

  /** The visited stale sets are flushed, all others are as before. */
  ghost predicate SweptTo(s: Sys, cur: seq<Set>, v: nat, b: nat, r: nat)
    requires Sized(s) && InTables(s.cfg.Total(), s.m)
  {
    |cur| == Sets(s.cfg) && forall i: nat | i < Sets(s.cfg) :: SweptAt(s, cur, v, b, r, i)
  }

  ghost predicate SweptAt(s: Sys, cur: seq<Set>, v: nat, b: nat, r: nat, i: nat)
    requires Sized(s) && InTables(s.cfg.Total(), s.m) && |cur| == Sets(s.cfg) && i < Sets(s.cfg)
  {
    cur[i] == if Visited(SplitSetNum(s.cfg, s.order, i), v, b, r) && Stale(s.cfg, s.order, s.m, i)
              then Flushed(s.sets[i]) else s.sets[i]
  }

  /** The sets after the sweep has handled set `i`. */
  ghost function SweepOne(s: Sys, cur: seq<Set>, i: nat): seq<Set>
    requires Sized(s) && InTables(s.cfg.Total(), s.m) && i < Sets(s.cfg) == |cur|
  {
    if Stale(s.cfg, s.order, s.m, i) then cur[i := Flushed(cur[i])] else cur
  }

  /** One more place: its set is met for the first time, and flushed exactly when stale. */
  lemma SweptPlace(s: Sys, cur: seq<Set>, v: nat, b: nat, r: nat)
    requires Sized(s) && InTables(s.cfg.Total(), s.m) && SweptTo(s, cur, v, b, r) && InRange(s.cfg, Place(v, b, r))
    ensures var i := GetSetNum(s.cfg, s.order, Place(v, b, r));
            i < Sets(s.cfg) && cur[i] == s.sets[i] && SweptTo(s, SweepOne(s, cur, i), v, b, r + 1)
  {
    var p, r' := Place(v, b, r), r + 1;
    var i := GetSetNum(s.cfg, s.order, p);
    PlaceRoundTrip(s.cfg, s.order, p);
    assert SweptAt(s, cur, v, b, r, i);
    var next := SweepOne(s, cur, i);
    forall k: nat | k < Sets(s.cfg) ensures SweptAt(s, next, v, b, r', k) {
      assert SweptAt(s, cur, v, b, r, k);
      SetRoundTrip(s.cfg, s.order, k);
    }
  }

  lemma SweptBank(s: Sys, cur: seq<Set>, v: nat, b: nat)
    requires Sized(s) && InTables(s.cfg.Total(), s.m) && SweptTo(s, cur, v, b, s.cfg.rows)
    ensures SweptTo(s, cur, v, b + 1, 0)
  {
    var b' := b + 1;
    forall k: nat | k < Sets(s.cfg) ensures SweptAt(s, cur, v, b', 0, k) {
      assert SweptAt(s, cur, v, b, s.cfg.rows, k);
      SetRoundTrip(s.cfg, s.order, k);
    }
  }

  lemma SweptVault(s: Sys, cur: seq<Set>, v: nat)
    requires Sized(s) && InTables(s.cfg.Total(), s.m) && SweptTo(s, cur, v, s.cfg.banks, 0)
    ensures SweptTo(s, cur, v + 1, 0, 0)
  {
    var v' := v + 1;
    forall k: nat | k < Sets(s.cfg) ensures SweptAt(s, cur, v', 0, 0, k) {
      assert SweptAt(s, cur, v, s.cfg.banks, 0, k);
      SetRoundTrip(s.cfg, s.order, k);
    }
  }

  lemma SweptAll(s: Sys, cur: seq<Set>, back: nat)
    requires Sized(s) && InTables(s.cfg.Total(), s.m) && SweptTo(s, cur, s.cfg.vaults, 0, 0)
    requires back + TotalDirty(cur) == TotalDirty(s.sets)
    ensures cur == SweepSets(s) && back == StaleDirty(s, Sets(s.cfg))
  {
    forall k: nat | k < Sets(s.cfg) ensures cur[k] == SweepSets(s)[k] {
      assert SweptAt(s, cur, s.cfg.vaults, 0, 0, k);
      SetRoundTrip(s.cfg, s.order, k);
    }
    SweepConserves(s, Sets(s.cfg));
    assert s.sets[..Sets(s.cfg)] == s.sets && SweepSets(s)[..Sets(s.cfg)] == SweepSets(s);
  }

  lemma SweptNone(s: Sys)
    requires Sized(s) && InTables(s.cfg.Total(), s.m)
    ensures SweptTo(s, s.sets, 0, 0, 0)
  {
  }

  lemma PlainStatsClear(cfg: Config, m: Manager)
    requires Inv(cfg, m)
    ensures StatsTo(cfg, m, false, cfg.Total()) == ClearStats(m)
  {
    hide StatsTo;
    var r := StatsTo(cfg, m, false, cfg.Total());
    if cfg.Total() > 0 { PlainStats(cfg, m, cfg.Total(), 0); }
    forall k: nat | k < cfg.Total() ensures r.banks[k] == ClearStats(m).banks[k] {
      PlainStats(cfg, m, cfg.Total(), k);
    }
    if cfg.Total() == 0 { EmptyStats(cfg, m); }
    assert r.banks == ClearStats(m).banks;
  }

  lemma EmptyStats(cfg: Config, m: Manager)
    requires Inv(cfg, m) && cfg.Total() == 0
    ensures StatsTo(cfg, m, false, 0) == m
  {
  }

  // ----- The object -----

  class StackDramCacheCntlr {
    const order: nat
    const enable: bool
    const manager: RemappingManager
    var remapped: bool
    var pages: map<nat, nat>
    var nextPage: nat
    var sets: seq<Set>
    var wbBlocks: nat

    ghost function State(): Sys
      reads this, manager
    {
      Sys(
        manager.cfg, order, enable, manager.State(), remapped,
        PageTable.Table(pages, nextPage), sets, wbBlocks)
    }

    ghost predicate Valid()
      reads this, manager
    {
      SysInv(State())
    }

    constructor (cfg: Config, o: nat, e: bool, ways: nat)
      requires cfg.Ok() && Regular(cfg) && KnownMap(o) && ways > 0
      ensures fresh(manager) && State() == Start(cfg, o, e, ways) && Valid()
    {
      order, enable, remapped, pages, nextPage := o, e, false, map[], 0;
      sets, wbBlocks := seq(Sets(cfg), _ => seq(ways, _ => EMPTY)), 0;
      manager := new RemappingManager(cfg);
      new;
      StartInv(cfg, o, e, ways);
    }

    method UpdateTemperature(v: nat, b: nat, t: real)
      requires Valid() && v < manager.cfg.vaults && b < manager.cfg.banks
      modifies this, manager
      ensures Valid() && State() == HeatStep(old(State()), v, b, t)
    {
      HeatKeeps(State(), v, b, t);
      manager.UpdateTemperature(v, b, t);
      remapped := true;
    }

    method TryRemapping()
      requires Valid()
      modifies manager
      ensures Valid() && State() == TryRemapStep(old(State()))
    {
      PassKeeps(State());
      if remapped && enable {
        manager.RunMechanism();
      }
    }

    /** translateAddress: first touch allocates the next physical page. */
    method TranslateAddress(address: nat) returns (physical: nat)
      requires Valid()
      modifies this
      ensures var t := PageTable.Touch(old(PageTable.Table(pages, nextPage)), Shr(address, PageTable.PAGE_BITS));
              && PageTable.Table(pages, nextPage) == t && physical == PageTable.Physical(t, address)
              && State() == old(State()).(pages := t)
    {
      var tag := Shr(address, PageTable.PAGE_BITS);
      var pTag := tag;
      if tag in pages {
        pTag := pages[tag];
      } else {
        pages := pages[tag := nextPage];
        pTag := nextPage;
        nextPage := nextPage + 1;
      }
      physical := Or(pTag * Pow2(PageTable.PAGE_BITS), LowBits(address, PageTable.PAGE_BITS));
    }

    /** The body of the sweep for one place. */
    method SweepPlace(v: nat, b: nat, r: nat, back: nat, ghost s: Sys) returns (back': nat)
      requires Sized(s) && Inv(s.cfg, s.m) && manager.cfg == s.cfg && manager.State() == s.m && order == s.order
      requires InRange(s.cfg, Place(v, b, r)) && SweptTo(s, sets, v, b, r)
      requires back + TotalDirty(sets) == TotalDirty(s.sets)
      modifies this`sets
      ensures SweptTo(s, sets, v, b, r + 1)
      ensures back' + TotalDirty(sets) == TotalDirty(s.sets)
    {
      hide Paired;
      BankIdInRange(s.cfg, Place(v, b, r));
      PlaceRoundTrip(s.cfg, s.order, Place(v, b, r));
      back' := back;
      var valid, migrated := manager.CheckValid(v, b), manager.CheckMigrated(v, b, r);
      var i := GetSetNum(manager.cfg, order, Place(v, b, r));
      SweptPlace(s, sets, v, b, r);
      if !(valid && !migrated) {
        var dirty := DirtyBlocks(sets[i]);
        if !valid {
          var flushed, _ := InvalidateContent(sets[i]);
          TotalDirtyUpdate(sets, i, flushed);
          VacantClean(flushed);
          sets := sets[i := flushed];
        } else if migrated {
          assert false;  // checkMigrated is false of a valid bank
        }
        back' := back' + dirty;
      }
    }

    /** checkRemapping: the triple loop over vaults, banks and rows. */
    method CheckRemapping()
      requires Valid()
      modifies this, manager
      ensures Valid() && State() == ThermalCache.CheckRemapping(old(State()))
    {
      hide SysInv, Paired, SweepSets, StaleDirty;
      ghost var s := State();
      SysInvParts(s);
      SweepKeeps(s);
      if !remapped {
        return;
      }
      var back := Sweep(s);
      PlainStatsClear(s.cfg, s.m);
      manager.ResetStats(false);
      wbBlocks := wbBlocks + back;
      remapped := false;
    }

    method Sweep(ghost s: Sys) returns (back: nat)
      requires s == State() && SysInv(s)
      modifies this`sets
      ensures sets == SweepSets(s) && back == StaleDirty(s, Sets(s.cfg))
    {
      hide Paired, Cleared, SweptAt;
      back := 0;
      SweptNone(s);
      for v := 0 to manager.cfg.vaults
        invariant SweptTo(s, sets, v, 0, 0) && back + TotalDirty(sets) == TotalDirty(s.sets)
      {
        for b := 0 to Pow2(FloorLog2(manager.cfg.banks))
          invariant SweptTo(s, sets, v, b, 0) && back + TotalDirty(sets) == TotalDirty(s.sets)
        {
          for r := 0 to Pow2(FloorLog2(manager.cfg.rows))
            invariant SweptTo(s, sets, v, b, r) && back + TotalDirty(sets) == TotalDirty(s.sets)
          {
            back := SweepPlace(v, b, r, back, s);
          }
          SweptBank(s, sets, v, b);
        }
        SweptVault(s, sets, v);
      }
      SweptAll(s, sets, back);
    }

    /** accessAttempt: look for the tag, mark the block on a write. */
    method AccessAttempt(target: nat, tag: nat, block: nat, write: bool) returns (found: bool)
      requires target < |sets|
      modifies this`sets
      ensures var i := Find(old(sets)[target], tag);
        && found == (i < |old(sets)[target]|)
        && (found ==> sets == old(sets)[target := old(sets)[target][i := Mark(old(sets)[target][i], block, write)]])
        && (!found ==> sets == old(sets))
    {
      found := false;
      var ways := sets[target];
      for i := 0 to |ways|
        invariant forall k | 0 <= k < i :: ways[k].tag != Some(tag)
      {
        if ways[i].tag == Some(tag) {
          FindFirst(ways, tag, i);
          sets := sets[target := ways[i := Mark(ways[i], block, write)]];
          return true;
        }
      }
      FindNone(ways, tag);
    }

    /** Page miss: the victim's dirty blocks go back to memory and the new page takes its way. */
    method ReplacePage(target: nat, tag: nat)
      requires target < |sets| && |sets[target]| > 0
      modifies this`sets, this`wbBlocks
      ensures var v := Victim(old(sets)[target]);
        && sets == old(sets)[target := old(sets)[target][v := Page(Some(tag), 0, 0)]]
        && wbBlocks == old(wbBlocks) + PopCount(old(sets)[target][v].dirty)
    {
      var ways := sets[target];
      var v := ReplacementIndex(ways);
      var back := CountBits(ways[v].dirty);
      wbBlocks := wbBlocks + back;
      sets := sets[target := ways[v := Page(Some(tag), 0, 0)]];
    }

    /** ProcessRequest. */
    method ProcessRequest(address: nat, write: bool, dramOff: bool)
      requires Valid()
      modifies this, manager
      ensures Valid() && State() == RequestStep(old(State()), address, write, dramOff)
    {
      hide SysInv, Paired, ThermalCache.CheckRemapping, RemapSet, BankOf, AccessStep, Served;
      hide PageTable.Physical, PageTable.Dense, Sized, Inv;
      ghost var s := State();
      SysInvParts(s);
      RequestKeeps(s, address, write, dramOff);
      PageTable.TouchKeepsDense(s.pages, Shr(address, PageTable.PAGE_BITS));
      var physical := TranslateAddress(address);
      TouchedKeeps(s, State());
      CheckRemapping();
      PageTable.LocateInRange(Sets(manager.cfg), physical);
      Serve(PageTable.Locate(Sets(manager.cfg), physical), write, dramOff);
    }

    /** The part of ProcessRequest after the sweep: refuse, or route and access. */
    method Serve(loc: PageTable.Location, write: bool, dramOff: bool)
      requires Valid() && loc.setN < Sets(manager.cfg)
      modifies this
      ensures var p, block := old(State()), loc.offset / PageTable.BLOCK_SIZE;
        if !Served(p, loc.setN, dramOff) then State() == p
        else
          && BankOf(p.cfg, p.order, loc.setN) < p.cfg.Total() && RemapSet(p.cfg, p.order, p.m, loc.setN) < Sets(p.cfg)
          && State() == AccessStep(p, RemapSet(p.cfg, p.order, p.m, loc.setN), loc.tag, block, write)
    {
      hide Paired, Cleared, GetSetNum, SplitSetNum;
      BankOfInRange(manager.cfg, order, loc.setN);
      var place := SplitSetNum(manager.cfg, order, loc.setN);
      if manager.CheckDisabled(place.vault, place.bank) || dramOff {
        return;
      }
      RemapSetPlace(manager.cfg, order, manager.State(), loc.setN);
      var id := BankId(manager.cfg, place.vault, place.bank);
      var logical := SplitId(manager.cfg, manager.banks[id].logical * manager.cfg.rows + place.row);
      var target := GetSetNum(manager.cfg, order, logical);
      var found := AccessAttempt(target, loc.tag, loc.offset / PageTable.BLOCK_SIZE, write);
      if !found {
        ReplacePage(target, loc.tag);
      }
    }
  }

  lemma SysInvParts(s: Sys)
    requires SysInv(s)
    ensures Sized(s) && Inv(s.cfg, s.m) && PageTable.Dense(s.pages) && Sets(s.cfg) > 0
  {
  }

  lemma {:induction false} FindFirst(ways: Set, tag: nat, i: nat)
    requires i < |ways| && ways[i].tag == Some(tag) && forall k | 0 <= k < i :: ways[k].tag != Some(tag)
    ensures Find(ways, tag) == i
  {
    if Find(ways, tag) < i { assert ways[Find(ways, tag)].tag == Some(tag); }
  }

  lemma {:induction false} FindNone(ways: Set, tag: nat)
    requires forall k | 0 <= k < |ways| :: ways[k].tag != Some(tag)
    ensures Find(ways, tag) == |ways|
  {
  }
}
