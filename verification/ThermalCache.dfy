/**
 The cache controller steered by the remapping manager: temperature updates, mechanism passes and requests
 (performance_model/dram_perf_model_normal.cc, performance_model/stacked_dram_cntlr.cc).
 */
module ThermalCache {
  import opened Bits
  import opened Remapping
  import opened ThermalSafety
  import opened Pairing
  import opened Geometry
  import opened DramCache
  import PageTable

  datatype Sys = Sys(
    cfg: Config, order: nat, enable: bool, m: Manager, remapped: bool,
    pages: PageTable.Table, sets: seq<Set>, wb: nat)

  /** A sensor reading, a call of tryRemapping, or a request from the last-level cache. */
  datatype Event =
    | Heat(vault: nat, bank: nat, temperature: real)
    | TryRemap
    | Request(address: nat, write: bool, dramOff: bool)

  ghost predicate Fits(cfg: Config, e: Event) {
    e.Heat? ==> e.vault < cfg.vaults && e.bank < cfg.banks
  }

  ghost predicate Sized(s: Sys) {
    && s.cfg.Ok() && Regular(s.cfg) && KnownMap(s.order) && |s.sets| == Sets(s.cfg)
    && forall i | 0 <= i < |s.sets| :: |s.sets[i]| > 0
  }

  /** A set of a bank that is away is vacant, unless the bank is still flagged for flushing. */
  ghost predicate Cleared(s: Sys)
    requires Sized(s) && InTables(s.cfg.Total(), s.m)
  {
    forall i: nat | i < Sets(s.cfg) :: ClearedAt(s, i)
  }

  ghost predicate ClearedAt(s: Sys, i: nat)
    requires Sized(s) && InTables(s.cfg.Total(), s.m) && i < Sets(s.cfg)
  {
    BankOfInRange(s.cfg, s.order, i);
    var b := BankOf(s.cfg, s.order, i);
    Away(s.m, b) ==> Vacant(s.sets[i]) || !s.m.banks[b].valid
  }

  ghost predicate AllValid(m: Manager) {
    forall b | 0 <= b < |m.banks| :: m.banks[b].valid
  }

  /** What holds between any two events. */
  ghost predicate SysInv(s: Sys) {
    && Sized(s) && Inv(s.cfg, s.m) && PageTable.Dense(s.pages)
    && (!s.remapped ==> AllValid(s.m))
    && Cleared(s)
    && (forall i | 0 <= i < |s.sets| :: Tidy(s.sets[i]))
  }

  // ----- Events -----

  function HeatStep(s: Sys, v: nat, b: nat, t: real): Sys
    requires Sized(s) && InTables(s.cfg.Total(), s.m) && v < s.cfg.vaults && b < s.cfg.banks
  {
    BankIdInRange(s.cfg, Place(v, b, 0));
    s.(m := UpdateTemperature(s.m, BankId(s.cfg, v, b), t), remapped := true)
  }

  function TryRemapStep(s: Sys): Sys
    requires Sized(s) && Inv(s.cfg, s.m)
  {
    if s.remapped && s.enable then s.(m := RunMechanism(s.cfg, s.m)) else s
  }

  /** resetStats(false): every bank's contents count as valid again. */
  function ClearStats(m: Manager): (r: Manager)
    ensures |r.banks| == |m.banks|
    ensures forall b | 0 <= b < |m.banks| :: r.banks[b] == m.banks[b].(valid := true, validRows := {})
  {
    m.(banks := seq(|m.banks|, (b: int) requires 0 <= b < |m.banks| => m.banks[b].(valid := true, validRows := {})))
  }

  /** Whether the sweep flushes set `i`: exactly when its bank is flagged. */
  predicate Stale(cfg: Config, order: nat, m: Manager, i: nat)
    requires cfg.Ok() && Regular(cfg) && KnownMap(order) && InTables(cfg.Total(), m) && i < Sets(cfg)
  {
    BankOfInRange(cfg, order, i);
    !m.banks[BankOf(cfg, order, i)].valid
  }

  function SweepSets(s: Sys): (r: seq<Set>)
    requires Sized(s) && InTables(s.cfg.Total(), s.m)
    ensures |r| == |s.sets|
    ensures forall i: nat | i < |r| :: r[i] == if Stale(s.cfg, s.order, s.m, i) then Flushed(s.sets[i]) else s.sets[i]
  {
    seq(|s.sets|, (i: int) requires 0 <= i < |s.sets| =>
      if Stale(s.cfg, s.order, s.m, i) then Flushed(s.sets[i]) else s.sets[i])
  }

  /** Dirty blocks in the stale sets below `i`. */
  function StaleDirty(s: Sys, i: nat): nat
    requires Sized(s) && InTables(s.cfg.Total(), s.m) && i <= Sets(s.cfg)
  {
    if i == 0 then 0
    else StaleDirty(s, i - 1) + if Stale(s.cfg, s.order, s.m, i - 1) then Dirty(s.sets[i - 1]) else 0
  }

  /** checkRemapping: the flush sweep, once after each temperature update. */
  function CheckRemapping(s: Sys): Sys
    requires Sized(s) && InTables(s.cfg.Total(), s.m)
  {
    if !s.remapped then s
    else s.(sets := SweepSets(s), wb := s.wb + StaleDirty(s, Sets(s.cfg)), m := ClearStats(s.m), remapped := false)
  }

  /** The cache access proper, on the routed set. */
  function AccessStep(s: Sys, target: nat, tag: nat, block: nat, write: bool): Sys
    requires Sized(s) && target < Sets(s.cfg)
  {
    var a := Access(s.sets[target], tag, block, write);
    s.(sets := s.sets[target := a.ways], wb := s.wb + a.back)
  }

  function Located(s: Sys, address: nat): PageTable.Location {
    var t := PageTable.Touch(s.pages, Shr(address, PageTable.PAGE_BITS));
    PageTable.Locate(Sets(s.cfg), PageTable.Physical(t, address))
  }

  lemma LocatedInRange(s: Sys, address: nat)
    requires Sized(s)
    ensures Located(s, address).setN < Sets(s.cfg)
  {
    var t := PageTable.Touch(s.pages, Shr(address, PageTable.PAGE_BITS));
    PageTable.LocateInRange(Sets(s.cfg), PageTable.Physical(t, address));
  }

  lemma SetsPowerOfTwo(cfg: Config)
    requires Regular(cfg)
    ensures Sets(cfg) == Pow2(FloorLog2(cfg.vaults) + FloorLog2(cfg.banks) + FloorLog2(cfg.rows))
  {
    Pow2Add(FloorLog2(cfg.vaults), FloorLog2(cfg.banks));
    Pow2Add(FloorLog2(cfg.vaults) + FloorLog2(cfg.banks), FloorLog2(cfg.rows));
  }

  /** Tag and offset are the translated address divided by the page size, the set is the tag modulo the sets. */
  lemma LocatedLaw(s: Sys, address: nat)
    requires Sized(s)
    ensures var t, loc := PageTable.Touch(s.pages, address / 4096), Located(s, address);
      && loc.tag * 1984 + loc.offset == t.pages[address / 4096] * 4096 + address % 4096
      && loc.offset < 1984 && loc.setN == loc.tag % Sets(s.cfg)
  {
    var t := PageTable.Touch(s.pages, address / 4096);
    PageTable.PhysicalLaw(t, address);
    SetsPowerOfTwo(s.cfg);
    var k := FloorLog2(s.cfg.vaults) + FloorLog2(s.cfg.banks) + FloorLog2(s.cfg.rows);
    PageTable.LocateLaw(Sets(s.cfg), PageTable.Physical(t, address), k);
  }

  /** The state in which checkSetDisabled is consulted: page touched, sweep done. */
  function Prepared(s: Sys, address: nat): Sys
    requires Sized(s) && InTables(s.cfg.Total(), s.m)
  {
    CheckRemapping(s.(pages := PageTable.Touch(s.pages, Shr(address, PageTable.PAGE_BITS))))
  }

  /** Whether the request reaches the cache: its set's bank is not disabled. */
  predicate Served(s: Sys, setN: nat, dramOff: bool)
    requires Sized(s) && InTables(s.cfg.Total(), s.m) && setN < Sets(s.cfg)
  {
    BankOfInRange(s.cfg, s.order, setN);
    !dramOff && !s.m.banks[BankOf(s.cfg, s.order, setN)].disabled
  }

  /** ProcessRequest. */
  function RequestStep(s: Sys, address: nat, write: bool, dramOff: bool): Sys
    requires Sized(s) && InTables(s.cfg.Total(), s.m)
  {
    var loc := Located(s, address);
    LocatedInRange(s, address);
    var p := Prepared(s, address);
    if !Served(p, loc.setN, dramOff) then p
    else
      RemapSetPlace(p.cfg, p.order, p.m, loc.setN);
      AccessStep(p, RemapSet(p.cfg, p.order, p.m, loc.setN), loc.tag, loc.offset / PageTable.BLOCK_SIZE, write)
  }

  function Next(s: Sys, e: Event): Sys
    requires Sized(s) && Inv(s.cfg, s.m) && Fits(s.cfg, e)
  {
    match e
    case Heat(v, b, t) => HeatStep(s, v, b, t)
    case TryRemap => TryRemapStep(s)
    case Request(a, w, off) => RequestStep(s, a, w, off)
  }

  // ----- Preservation -----

  lemma HeatKeepsManager(cfg: Config, m: Manager, b: nat, t: real)
    requires Inv(cfg, m) && b < cfg.Total()
    ensures Inv(cfg, UpdateTemperature(m, b, t))
  {
    forall k: nat | k < cfg.Total() ensures Paired(UpdateTemperature(m, b, t), k) { assert Paired(m, k); }
  }

  lemma HeatKeeps(s: Sys, v: nat, b: nat, t: real)
    requires SysInv(s) && v < s.cfg.vaults && b < s.cfg.banks
    ensures SysInv(HeatStep(s, v, b, t)) && HeatStep(s, v, b, t).cfg == s.cfg
  {
    hide Paired;
    var r := HeatStep(s, v, b, t);
    BankIdInRange(s.cfg, Place(v, b, 0));
    HeatKeepsManager(s.cfg, s.m, BankId(s.cfg, v, b), t);
    forall i: nat | i < Sets(s.cfg) ensures ClearedAt(r, i) { assert ClearedAt(s, i); }
  }

  lemma PassKeeps(s: Sys)
    requires SysInv(s)
    ensures SysInv(TryRemapStep(s)) && TryRemapStep(s).cfg == s.cfg
  {
    hide PassTo;
    var r := TryRemapStep(s);
    forall i: nat | i < Sets(s.cfg) ensures ClearedAt(r, i) {
      assert ClearedAt(s, i);
      BankOfInRange(s.cfg, s.order, i);
      PassFlags(s.cfg, s.m, BankOf(s.cfg, s.order, i));
    }
  }

  lemma ClearStatsKeeps(cfg: Config, m: Manager)
    requires Inv(cfg, m)
    ensures Inv(cfg, ClearStats(m)) && AllValid(ClearStats(m))
    ensures forall b: nat | b < cfg.Total() :: Away(ClearStats(m), b) == Away(m, b)
  {
    var r := ClearStats(m);
    forall k: nat | k < cfg.Total() ensures Paired(r, k) { assert Paired(m, k); }
  }

  lemma {:induction false} SweepConserves(s: Sys, i: nat)
    requires Sized(s) && InTables(s.cfg.Total(), s.m) && i <= Sets(s.cfg)
    ensures StaleDirty(s, i) + TotalDirty(SweepSets(s)[..i]) == TotalDirty(s.sets[..i])
  {
    hide Stale, InTables, Flushed, Dirty, Regular;
    if i != 0 {
      SweepConserves(s, i - 1);
      TotalDirtyPrefix(s.sets, i - 1);
      TotalDirtyPrefix(SweepSets(s), i - 1);
      VacantClean(Flushed(s.sets[i - 1]));
    }
  }

  lemma SweepClears(s: Sys)
    requires SysInv(s) && s.remapped
    ensures Sized(CheckRemapping(s)) && InTables(s.cfg.Total(), CheckRemapping(s).m) && Cleared(CheckRemapping(s))
  {
    hide Paired;
    ClearStatsKeeps(s.cfg, s.m);
    var r := CheckRemapping(s);
    forall i: nat | i < Sets(s.cfg) ensures ClearedAt(r, i) {
      assert ClearedAt(s, i);
      BankOfInRange(s.cfg, s.order, i);
    }
  }

  /** Blocks written back or still dirty. */
  function Balance(s: Sys): nat { s.wb + TotalDirty(s.sets) }

  lemma SweepBalances(s: Sys)
    requires SysInv(s)
    ensures Balance(CheckRemapping(s)) == Balance(s)
  {
    SweepConserves(s, Sets(s.cfg));
    assert s.sets[..Sets(s.cfg)] == s.sets && SweepSets(s)[..Sets(s.cfg)] == SweepSets(s);
  }

  lemma SweepKeeps(s: Sys)
    requires SysInv(s)
    ensures SysInv(CheckRemapping(s)) && !CheckRemapping(s).remapped
  {
    hide Cleared, Paired, StaleDirty, Stale, TotalDirty;
    if s.remapped {
      ClearStatsKeeps(s.cfg, s.m);
      SweepClears(s);
    }
  }

  /** No page sits in the sets of a disabled or remapped-away bank. */
  ghost predicate NothingAway(s: Sys) {
    Sized(s) && InTables(s.cfg.Total(), s.m) && forall i: nat | i < Sets(s.cfg) :: VacantAway(s, i)
  }

  ghost predicate VacantAway(s: Sys, i: nat)
    requires Sized(s) && InTables(s.cfg.Total(), s.m) && i < Sets(s.cfg)
  {
    BankOfInRange(s.cfg, s.order, i);
    Away(s.m, BankOf(s.cfg, s.order, i)) ==> Vacant(s.sets[i])
  }

  lemma SettledIsClear(s: Sys)
    requires SysInv(s) && !s.remapped
    ensures NothingAway(s)
  {
    forall i: nat | i < Sets(s.cfg) ensures VacantAway(s, i) {
      assert ClearedAt(s, i);
      BankOfInRange(s.cfg, s.order, i);
    }
  }

  lemma AccessKeeps(s: Sys, target: nat, tag: nat, block: nat, write: bool)
    requires SysInv(s) && target < Sets(s.cfg)
    ensures BankOf(s.cfg, s.order, target) < s.cfg.Total()
    ensures !Away(s.m, BankOf(s.cfg, s.order, target)) ==> SysInv(AccessStep(s, target, tag, block, write))
  {
    hide Paired;
    BankOfInRange(s.cfg, s.order, target);
    if !Away(s.m, BankOf(s.cfg, s.order, target)) {
      var r := AccessStep(s, target, tag, block, write);
      AccessServes(s.sets[target], tag, block, write);
      forall i: nat | i < Sets(s.cfg) ensures ClearedAt(r, i) { assert ClearedAt(s, i); }
    }
  }

  /** Only the page table differs, and it is dense. */
  lemma TouchedKeeps(s: Sys, r: Sys)
    requires SysInv(s) && PageTable.Dense(r.pages) && r == s.(pages := r.pages)
    ensures SysInv(r)
  {
    forall i: nat | i < Sets(s.cfg) ensures ClearedAt(r, i) { assert ClearedAt(s, i); }
  }

  lemma PreparedKeeps(s: Sys, address: nat)
    requires SysInv(s)
    ensures var p := Prepared(s, address);
            SysInv(p) && NothingAway(p) && !p.remapped && p.cfg == s.cfg && p.order == s.order
  {
    hide Cleared, Paired, NothingAway;
    var tag := Shr(address, PageTable.PAGE_BITS);
    var touched := s.(pages := PageTable.Touch(s.pages, tag));
    PageTable.TouchKeepsDense(s.pages, tag);
    TouchedKeeps(s, touched);
    SweepKeeps(touched);
    SettledIsClear(Prepared(s, address));
  }

  lemma RequestKeeps(s: Sys, address: nat, write: bool, dramOff: bool)
    requires SysInv(s)
    ensures SysInv(RequestStep(s, address, write, dramOff)) && !RequestStep(s, address, write, dramOff).remapped
    ensures RequestStep(s, address, write, dramOff).cfg == s.cfg
    ensures SysInv(Prepared(s, address)) && NothingAway(Prepared(s, address))
  {
    hide Cleared, Paired, RemapSet, Prepared, NothingAway;
    PreparedKeeps(s, address);
    LocatedInRange(s, address);
    var p, loc := Prepared(s, address), Located(s, address);
    if Served(p, loc.setN, dramOff) {
      RoutedToUsable(p, loc.setN);
      AccessKeeps(p, RemapSet(p.cfg, p.order, p.m, loc.setN), loc.tag, loc.offset / PageTable.BLOCK_SIZE, write);
    }
  }

  /** A served request is routed to a bank that is on and stands for itself. */
  lemma RoutedToUsable(s: Sys, setN: nat)
    requires Sized(s) && Inv(s.cfg, s.m) && setN < Sets(s.cfg)
    ensures BankOf(s.cfg, s.order, setN) < s.cfg.Total()
    ensures Served(s, setN, false) ==>
            var t := RemapSet(s.cfg, s.order, s.m, setN);
            t < Sets(s.cfg) && BankOf(s.cfg, s.order, t) < s.cfg.Total() && Usable(s.m, BankOf(s.cfg, s.order, t))
  {
    RemapSetPlace(s.cfg, s.order, s.m, setN);
    if Served(s, setN, false) {
      LogicalIsUsable(s.cfg.Total(), s.m, BankOf(s.cfg, s.order, setN));
    }
  }

  lemma NextKeeps(s: Sys, e: Event)
    requires SysInv(s) && Fits(s.cfg, e)
    ensures SysInv(Next(s, e)) && Next(s, e).cfg == s.cfg
  {
    hide RequestStep, HeatStep, TryRemapStep;
    match e
    case Heat(v, b, t) => HeatKeeps(s, v, b, t);
    case TryRemap => PassKeeps(s);
    case Request(a, w, off) => RequestKeeps(s, a, w, off);
  }

  // ----- Runs -----

  ghost predicate AllFit(cfg: Config, es: seq<Event>) {
    forall i | 0 <= i < |es| :: Fits(cfg, es[i])
  }

  /** The state after a run of events. */
  ghost function Run(s: Sys, es: seq<Event>): (r: Sys)
    requires SysInv(s) && AllFit(s.cfg, es)
    ensures SysInv(r) && r.cfg == s.cfg
    decreases |es|
  {
    if es == [] then s
    else
      var r := Run(s, es[..|es| - 1]);
      NextKeeps(r, es[|es| - 1]);
      Next(r, es[|es| - 1])
  }

  lemma RunStep(s: Sys, es: seq<Event>, e: Event)
    requires SysInv(s) && AllFit(s.cfg, es) && Fits(s.cfg, e)
    ensures AllFit(s.cfg, es + [e]) && Run(s, es + [e]) == Next(Run(s, es), e)
  {
    hide SysInv, Next;
    assert (es + [e])[..|es|] == es;
  }

  /** The state the constructors leave behind. */
  function Start(cfg: Config, order: nat, enable: bool, ways: nat): Sys
    requires cfg.Ok()
  {
    Sys(cfg, order, enable, InitialManager(cfg.Total()), false, PageTable.Initial(),
        seq(Sets(cfg), _ => seq(ways, _ => EMPTY)), 0)
  }

  lemma {:induction false} CleanSets(n: nat, w: Set)
    requires Dirty(w) == 0
    ensures TotalDirty(seq(n, _ => w)) == 0
  {
    if n != 0 {
      CleanSets(n - 1, w);
      assert seq(n, _ => w)[1..] == seq(n - 1, _ => w);
    }
  }

  lemma StartInv(cfg: Config, order: nat, enable: bool, ways: nat)
    requires cfg.Ok() && Regular(cfg) && KnownMap(order) && ways > 0
    ensures SysInv(Start(cfg, order, enable, ways)) && Balance(Start(cfg, order, enable, ways)) == 0
  {
    var s := Start(cfg, order, enable, ways);
    VacantClean(seq(ways, _ => EMPTY));
    CleanSets(Sets(cfg), seq(ways, _ => EMPTY));
    assert s.sets == seq(Sets(cfg), _ => seq(ways, _ => EMPTY));
    assert Matching(cfg.Total(), s.m);
    assert Cleared(s) by {
      forall i: nat | i < Sets(cfg) ensures ClearedAt(s, i) { BankOfInRange(cfg, order, i); }
    }
  }

  /** Whatever happened before, at the moment a request reaches the cache no page sits in an away bank. */
  lemma NoPageInAwayBank(s: Sys, es: seq<Event>, address: nat, write: bool, dramOff: bool)
    requires SysInv(s) && AllFit(s.cfg, es)
    ensures var r := Run(s, es);
            && NothingAway(Prepared(r, address))
            && NothingAway(RequestStep(r, address, write, dramOff))
  {
    hide Run, RequestStep, Prepared, NothingAway, Cleared, Paired;
    var r := Run(s, es);
    RequestKeeps(r, address, write, dramOff);
    SettledIsClear(RequestStep(r, address, write, dramOff));
  }

  // ----- What a request does -----

  /** The sweep before a request empties exactly the sets of flagged banks, and forgets the flags. */
  lemma PreparedLaw(s: Sys, address: nat)
    requires SysInv(s)
    ensures var p := Prepared(s, address);
      && Sized(p) && InTables(p.cfg.Total(), p.m) && !p.remapped
      && p == s.(pages := PageTable.Touch(s.pages, Shr(address, PageTable.PAGE_BITS)),
                 sets := p.sets, wb := p.wb, m := p.m, remapped := false)
      && p.m.phy == s.m.phy && Balance(p) == Balance(s)
      && (forall b: nat | b < s.cfg.Total() :: p.m.banks[b] == s.m.banks[b].(valid := true))
      && forall i: nat | i < Sets(s.cfg) :: BankOf(s.cfg, s.order, i) < s.cfg.Total() &&
           p.sets[i] == if s.m.banks[BankOf(s.cfg, s.order, i)].valid then s.sets[i]
                        else seq(|s.sets[i]|, _ => EMPTY)
  {
    hide Paired, Cleared, StaleDirty, TotalDirty;
    var p := Prepared(s, address);
    var touched := s.(pages := p.pages);
    PreparedKeeps(s, address);
    PageTable.TouchKeepsDense(s.pages, Shr(address, PageTable.PAGE_BITS));
    TouchedKeeps(s, touched);
    SweepBalances(touched);
    forall i: nat | i < Sets(s.cfg)
      ensures BankOf(s.cfg, s.order, i) < s.cfg.Total()
      ensures p.sets[i] == if s.m.banks[BankOf(s.cfg, s.order, i)].valid then s.sets[i]
                           else seq(|s.sets[i]|, _ => EMPTY)
    {
      BankOfInRange(s.cfg, s.order, i);
    }
  }

  /**
   A request whose bank is off changes nothing after the sweep. Any other leaves its page in the routed set, marked if
   it is a write to a page already there, and changes no other set.
   */
  lemma RequestLaw(s: Sys, address: nat, write: bool, dramOff: bool)
    requires SysInv(s)
    ensures var p, loc, r := Prepared(s, address), Located(s, address), RequestStep(s, address, write, dramOff);
      && SysInv(p) && loc.setN < Sets(s.cfg) && BankOf(s.cfg, s.order, loc.setN) < s.cfg.Total()
      && if dramOff || p.m.banks[BankOf(s.cfg, s.order, loc.setN)].disabled then r == p
         else
           var t := RemapSet(s.cfg, s.order, p.m, loc.setN);
           && t < Sets(s.cfg) && r == p.(sets := r.sets, wb := r.wb) && r.wb >= p.wb && |r.sets| == |p.sets|
           && (forall i: nat | i < Sets(s.cfg) && i != t :: r.sets[i] == p.sets[i])
           && Handled(p.sets[t], r.sets[t], r.wb - p.wb, loc.tag, loc.offset / 64, write)
  {
    hide Paired, Cleared, RemapSet, Prepared, NothingAway, Access, Handled, Located;
    PreparedKeeps(s, address);
    LocatedInRange(s, address);
    var p, loc := Prepared(s, address), Located(s, address);
    BankOfInRange(p.cfg, p.order, loc.setN);
    if Served(p, loc.setN, dramOff) {
      RemapSetPlace(p.cfg, p.order, p.m, loc.setN);
      AccessServes(p.sets[RemapSet(p.cfg, p.order, p.m, loc.setN)], loc.tag, loc.offset / 64, write);
    }
  }

  /** The event is a write that the cache takes, to a page it holds, at a block that is clean. */
  ghost predicate TurnsBlock(s: Sys, e: Event)
    requires SysInv(s)
  {
    e.Request? && e.write && !e.dramOff &&
    var p, loc := Prepared(s, e.address), Located(s, e.address);
    var b := BankOf(s.cfg, s.order, loc.setN);
    PreparedKeeps(s, e.address);
    b < s.cfg.Total() && !p.m.banks[b].disabled &&
    var t := RemapSet(s.cfg, s.order, p.m, loc.setN);
    t < Sets(s.cfg) && HoldsClean(p.sets[t], loc.tag, loc.offset / 64)
  }

  lemma RequestBalances(s: Sys, address: nat, write: bool, dramOff: bool)
    requires SysInv(s)
    ensures Balance(RequestStep(s, address, write, dramOff))
         == Balance(s) + if TurnsBlock(s, Request(address, write, dramOff)) then 1 else 0
  {
    hide Paired, Cleared, RemapSet, Prepared, NothingAway, Access, HoldsClean, Located;
    PreparedKeeps(s, address);
    PreparedLaw(s, address);
    LocatedInRange(s, address);
    var p, loc := Prepared(s, address), Located(s, address);
    BankOfInRange(p.cfg, p.order, loc.setN);
    if Served(p, loc.setN, dramOff) {
      RemapSetPlace(p.cfg, p.order, p.m, loc.setN);
      var t := RemapSet(p.cfg, p.order, p.m, loc.setN);
      AccessConserves(p.sets[t], loc.tag, loc.offset / 64, write);
      TotalDirtyUpdate(p.sets, t, Access(p.sets[t], loc.tag, loc.offset / 64, write).ways);
    }
  }

  lemma NextBalances(s: Sys, e: Event)
    requires SysInv(s) && Fits(s.cfg, e)
    ensures Balance(Next(s, e)) == Balance(s) + if TurnsBlock(s, e) then 1 else 0
  {
    hide SysInv, RequestStep, RunMechanism, TurnsBlock;
    match e
    case Heat(v, b, t) => NoTurn(s, e);
    case TryRemap => NoTurn(s, e);
    case Request(a, w, off) => RequestBalances(s, a, w, off);
  }

  lemma NoTurn(s: Sys, e: Event)
    requires SysInv(s) && !e.Request?
    ensures !TurnsBlock(s, e)
  {
  }

  /** How many events of a run are writes that turn a clean block dirty. */
  ghost function Turns(s: Sys, es: seq<Event>): nat
    requires SysInv(s) && AllFit(s.cfg, es)
    decreases |es|
  {
    if es == [] then 0
    else
      var front, e := es[..|es| - 1], es[|es| - 1];
      Turns(s, front) + if TurnsBlock(Run(s, front), e) then 1 else 0
  }

  lemma {:induction false} RunBalances(s: Sys, es: seq<Event>)
    requires SysInv(s) && AllFit(s.cfg, es)
    ensures Balance(Run(s, es)) == Balance(s) + Turns(s, es)
    decreases |es|
  {
    hide SysInv, Next, Balance, TurnsBlock;
    if es != [] {
      RunBalances(s, es[..|es| - 1]);
      NextBalances(Run(s, es[..|es| - 1]), es[|es| - 1]);
    }
  }

  /** Every block a write ever turned dirty is written back or still dirty in a set. */
  lemma WriteBackConserved(cfg: Config, order: nat, enable: bool, ways: nat, es: seq<Event>)
    requires cfg.Ok() && Regular(cfg) && KnownMap(order) && ways > 0 && AllFit(cfg, es)
    ensures SysInv(Start(cfg, order, enable, ways))
    ensures var s := Start(cfg, order, enable, ways);
            Run(s, es).wb + TotalDirty(Run(s, es).sets) == Turns(s, es)
  {
    hide Run, Turns;
    StartInv(cfg, order, enable, ways);
    RunBalances(Start(cfg, order, enable, ways), es);
  }

  lemma StepIsQuiet(s: Sys, e: Event)
    requires SysInv(s) && Fits(s.cfg, e) && s.cfg.policy <= 2
    ensures Next(s, e).m.errors == s.m.errors
  {
    hide PassTo, Cleared, Paired, SweepSets;
    PassIsQuiet(s.cfg, s.m, s.cfg.Total());
  }

  /** Under policies 0 to 2 no run of events ever prints an "[Error]" line of the remapping manager. */
  lemma {:induction false} RunIsQuiet(s: Sys, es: seq<Event>)
    requires SysInv(s) && AllFit(s.cfg, es) && s.cfg.policy <= 2
    ensures Run(s, es).m.errors == s.m.errors
  {
    hide SysInv, Next;
    if es != [] {
      RunIsQuiet(s, es[..|es| - 1]);
      StepIsQuiet(Run(s, es[..|es| - 1]), es[|es| - 1]);
    }
  }

  // ----- Temperatures along a run -----

  /** Whether the last reading or request was a reading: tryRemapping acts on it only then. */
  ghost predicate Pending(es: seq<Event>, start: bool) {
    if es == [] then start
    else match es[|es| - 1]
      case Heat(_, _, _) => true
      case Request(_, _, _) => false
      case TryRemap => Pending(es[..|es| - 1], start)
  }

  /** The flag tryRemapping tests is set exactly when no request came after the last reading. */
  lemma {:induction false} FlagIsPending(s: Sys, es: seq<Event>)
    requires SysInv(s) && AllFit(s.cfg, es)
    ensures Run(s, es).remapped == Pending(es, s.remapped) && Run(s, es).enable == s.enable
  {
    hide SysInv, RunMechanism;
    if es != [] {
      var front, e := es[..|es| - 1], es[|es| - 1];
      FlagIsPending(s, front);
      assert front + [e] == es;
      RunStep(s, front, e);
      FlagStep(Run(s, front), e);
    }
  }

  lemma FlagStep(s: Sys, e: Event)
    requires SysInv(s) && Fits(s.cfg, e)
    ensures Next(s, e).remapped == (if e.TryRemap? then s.remapped else e.Heat?) && Next(s, e).enable == s.enable
  {
    hide Cleared, Paired, RunMechanism, SweepSets;
  }

  /** The last reading of bank `k`, or `start` if there was none. */
  ghost function Reading(cfg: Config, es: seq<Event>, k: nat, start: real): real {
    if es == [] then start
    else
      var e := es[|es| - 1];
      if e.Heat? && BankId(cfg, e.vault, e.bank) == k then e.temperature
      else Reading(cfg, es[..|es| - 1], k, start)
  }

  lemma StepReads(s: Sys, e: Event, k: nat)
    requires SysInv(s) && Fits(s.cfg, e) && k < s.cfg.Total()
    ensures InTables(s.cfg.Total(), Next(s, e).m)
    ensures Next(s, e).m.phy[k].temperature ==
      if e.Heat? && BankId(s.cfg, e.vault, e.bank) == k then e.temperature else s.m.phy[k].temperature
  {
    hide Cleared, Paired, PassTo, SweepSets, Prepared;
    NextKeeps(s, e);
    match e
    case Heat(v, b, t) => BankIdInRange(s.cfg, Place(v, b, 0));
    case TryRemap =>
      if s.cfg.policy <= 1 {
        PassLaw(s.cfg, s.m, k);
      } else {
        OtherPolicyTo(s.cfg, s.m, s.cfg.Total());
      }
    case Request(a, w, off) =>
      PreparedLaw(s, a);
      RequestLaw(s, a, w, off);
  }

  /** Over every run a bank's temperature is its last reading. */
  lemma {:induction false} TemperatureIsReading(s: Sys, es: seq<Event>, k: nat)
    requires SysInv(s) && AllFit(s.cfg, es) && k < s.cfg.Total()
    ensures Run(s, es).m.phy[k].temperature == Reading(s.cfg, es, k, s.m.phy[k].temperature)
    decreases |es|
  {
    hide Cleared, Paired, Next;
    if es != [] {
      TemperatureIsReading(s, es[..|es| - 1], k);
      StepReads(Run(s, es[..|es| - 1]), es[|es| - 1], k);
    }
  }

  ghost predicate Quiet(es: seq<Event>) {
    forall i | 0 <= i < |es| :: !es[i].Heat?
  }

  lemma ClearStatsSafe(cfg: Config, m: Manager)
    requires Safe(cfg, m)
    ensures Safe(cfg, ClearStats(m))
  {
  }

  /** Without a new temperature, safety stays. */
  lemma QuietStepSafe(s: Sys, e: Event)
    requires SysInv(s) && s.cfg.policy <= 1 && Safe(s.cfg, s.m) && Fits(s.cfg, e) && !e.Heat?
    ensures Safe(s.cfg, Next(s, e).m)
  {
    hide RunMechanism, Safe;
    match e
    case TryRemap => PassIsSafe(s.cfg, s.m);
    case Request(a, w, off) =>
      ClearStatsSafe(s.cfg, s.m);
  }

  lemma {:induction false} QuietRunSafe(s: Sys, es: seq<Event>)
    requires SysInv(s) && s.cfg.policy <= 1 && Safe(s.cfg, s.m) && AllFit(s.cfg, es) && Quiet(es)
    ensures Safe(s.cfg, Run(s, es).m)
  {
    hide Safe, Next, SysInv;
    if es != [] {
      QuietRunSafe(s, es[..|es| - 1]);
      QuietStepSafe(Run(s, es[..|es| - 1]), es[|es| - 1]);
    }
  }

  /** A request for `address`, if the cache takes it, is routed to a bank below the high threshold. */
  ghost predicate RoutesCool(q: Sys, address: nat)
    requires SysInv(q)
  {
    var r := Prepared(q, address);
    var n := Located(q, address).setN;
    n < Sets(q.cfg) && (Served(r, n, false) ==>
      BankOf(r.cfg, r.order, n) < q.cfg.Total() &&
      var t := BankOf(r.cfg, r.order, RemapSet(r.cfg, r.order, r.m, n));
      t < q.cfg.Total() && r.m.phy[t].temperature < q.cfg.high)
  }

  lemma SafeRoutesCool(q: Sys, address: nat)
    requires SysInv(q) && Safe(q.cfg, q.m)
    ensures RoutesCool(q, address)
  {
    hide Cleared, Paired, RemapSet;
    ClearStatsSafe(q.cfg, q.m);
    var r := Prepared(q, address);
    LocatedInRange(q, address);
    RemapSetPlace(r.cfg, r.order, r.m, Located(q, address).setN);
  }

  /**
   After a pass that ran, and until the next temperature reading, every request that reaches the cache is
   routed to a bank below the high threshold. The pass runs when no request came after the last reading.
   */
  lemma ServedRequestsAreCool(s: Sys, before: seq<Event>, after: seq<Event>, address: nat)
    requires SysInv(s) && s.cfg.policy <= 1 && AllFit(s.cfg, before) && AllFit(s.cfg, after) && Quiet(after)
    requires s.enable && Pending(before, s.remapped)
    ensures var p := TryRemapStep(Run(s, before));
      && SysInv(p) && p.cfg == s.cfg && RoutesCool(Run(p, after), address)
      && forall k: nat | k < s.cfg.Total() ::
           Run(p, after).m.phy[k].temperature == Reading(s.cfg, before, k, s.m.phy[k].temperature)
  {
    hide Run, RunMechanism, Safe, Cleared, Paired, RoutesCool;
    var p := TryRemapStep(Run(s, before));
    FlagIsPending(s, before);
    PassKeeps(Run(s, before));
    PassIsSafe(s.cfg, Run(s, before).m);
    QuietRunSafe(p, after);
    SafeRoutesCool(Run(p, after), address);
    forall k: nat | k < s.cfg.Total()
      ensures Run(p, after).m.phy[k].temperature == Reading(s.cfg, before, k, s.m.phy[k].temperature)
    {
      TemperatureIsReading(s, before, k);
      StepReads(Run(s, before), TryRemap, k);
      TemperatureIsReading(p, after, k);
      QuietReading(s.cfg, after, k, p.m.phy[k].temperature);
    }
  }

  lemma {:induction false} QuietReading(cfg: Config, es: seq<Event>, k: nat, start: real)
    requires Quiet(es)
    ensures Reading(cfg, es, k, start) == start
  {
    if es != [] { QuietReading(cfg, es[..|es| - 1], k, start); }
  }

  // ----- Where the requests of a hot bank go -----

  /** The two managers map banks alike: they differ in validity flags at most. */
  ghost predicate SameMap(n: nat, m: Manager, r: Manager) {
    && |m.banks| == n && |r.banks| == n && r.phy == m.phy
    && forall k: nat | k < n :: r.banks[k] == m.banks[k].(valid := r.banks[k].valid)
  }

  lemma QuietStepMap(s: Sys, e: Event)
    requires SysInv(s) && s.cfg.policy <= 1 && Rests(s.cfg, s.m) && Fits(s.cfg, e) && !e.Heat?
    ensures SysInv(Next(s, e)) && SameMap(s.cfg.Total(), s.m, Next(s, e).m) && Rests(s.cfg, Next(s, e).m)
  {
    hide Cleared, Paired, PassTo, RequestStep, Rests;
    NextKeeps(s, e);
    if e.TryRemap? {
      RestTo(s.cfg, s.m, s.cfg.Total());
    } else {
      RequestMap(s, e.address, e.write, e.dramOff);
      SameMapRests(s.cfg, s.m, Next(s, e).m);
    }
  }

  lemma RequestMap(s: Sys, address: nat, write: bool, dramOff: bool)
    requires SysInv(s)
    ensures SameMap(s.cfg.Total(), s.m, RequestStep(s, address, write, dramOff).m)
  {
    hide Cleared, Paired, Prepared, RequestStep, RemapSet, Handled;
    PreparedLaw(s, address);
    RequestLaw(s, address, write, dramOff);
  }

  lemma SameMapRests(cfg: Config, m: Manager, r: Manager)
    requires Rests(cfg, m) && SameMap(cfg.Total(), m, r)
    ensures Rests(cfg, r)
  {
    forall b: nat | b < cfg.Total() ensures RestsAt(cfg, r, b) { assert RestsAt(cfg, m, b); }
  }

  lemma {:induction false} QuietRunMap(s: Sys, es: seq<Event>)
    requires SysInv(s) && s.cfg.policy <= 1 && Rests(s.cfg, s.m) && AllFit(s.cfg, es) && Quiet(es)
    ensures SameMap(s.cfg.Total(), s.m, Run(s, es).m) && Rests(s.cfg, Run(s, es).m)
    decreases |es|
  {
    hide Next, SysInv, RestsAt;
    if es != [] {
      QuietRunMap(s, es[..|es| - 1]);
      QuietStepMap(Run(s, es[..|es| - 1]), es[|es| - 1]);
    }
  }

  /** A request is taken exactly when its bank is on, and then goes to the same row of the bank's logical bank. */
  lemma RoutesByMap(s: Sys, q: Sys, address: nat)
    requires SysInv(s) && SysInv(q) && q.cfg == s.cfg && q.order == s.order && SameMap(s.cfg.Total(), s.m, q.m)
    ensures var p, n := Prepared(q, address), Located(q, address).setN;
      && Sized(p) && InTables(p.cfg.Total(), p.m) && p.cfg == s.cfg && p.order == s.order
      && n < Sets(s.cfg) && BankOf(s.cfg, s.order, n) < s.cfg.Total()
      && (Served(p, n, false) <==> !s.m.banks[BankOf(s.cfg, s.order, n)].disabled)
      && var t := RemapSet(s.cfg, s.order, p.m, n);
         && t < Sets(s.cfg) && RowOf(s.cfg, s.order, t) == RowOf(s.cfg, s.order, n)
         && BankOf(s.cfg, s.order, t) == s.m.banks[BankOf(s.cfg, s.order, n)].logical
  {
    hide Cleared, Paired, Prepared, RemapSet;
    PreparedLaw(q, address);
    LocatedInRange(q, address);
    RemapSetPlace(s.cfg, s.order, Prepared(q, address).m, Located(q, address).setN);
  }

  /** Requests for `address`, if it lies in bank `b`, are taken and go to the same row of bank `j`. */
  ghost predicate GoesTo(q: Sys, address: nat, b: nat, j: nat)
    requires SysInv(q)
  {
    LocatedInRange(q, address);
    PreparedKeeps(q, address);
    var p, n := Prepared(q, address), Located(q, address).setN;
    BankOfInRange(p.cfg, p.order, n);
    BankOf(p.cfg, p.order, n) == b ==>
      && Served(p, n, false)
      && var t := RemapSet(p.cfg, p.order, p.m, n);
         BankOf(p.cfg, p.order, t) == j && RowOf(p.cfg, p.order, t) == RowOf(p.cfg, p.order, n)
  }

  ghost predicate Refused(q: Sys, address: nat, b: nat)
    requires SysInv(q)
  {
    LocatedInRange(q, address);
    PreparedKeeps(q, address);
    var p, n := Prepared(q, address), Located(q, address).setN;
    BankOfInRange(p.cfg, p.order, n);
    BankOf(p.cfg, p.order, n) == b ==> !Served(p, n, false)
  }

  /**
   After a pass that ran, and until the next reading: the requests of a hot bank that found a partner are served in
   the same row of the partner, those of one that found none are refused. No bank may have a temperature that is
   both hot and below the recovery threshold, which cannot happen when the recovery threshold is the lower one.
   */
  lemma HotBankRequests(s: Sys, before: seq<Event>, after: seq<Event>, b: nat, j: nat, address: nat)
    requires SysInv(s) && s.cfg.policy == 1 && AllFit(s.cfg, before) && AllFit(s.cfg, after) && Quiet(after)
    requires s.enable && Pending(before, s.remapped) && b < s.cfg.Total()
    requires var m := Run(s, before).m;
      forall k: nat | k < s.cfg.Total() && m.phy[k].temperature < s.cfg.remapT :: !Hot(s.cfg, m, k)
    ensures var p, turn := TryRemapStep(Run(s, before)), PassTo(s.cfg, Run(s, before).m, b);
      && SysInv(p) && p.cfg == s.cfg
      && (Pairs(s.cfg, turn, b, j) ==> GoesTo(Run(p, after), address, b, j))
      && (Unpaired(s.cfg, turn, b) ==> Refused(Run(p, after), address, b))
  {
    hide Run, RunMechanism, PassTo, Cleared, Paired, Pairs, Tied, Off, Prepared, Located, RemapSet, BankOf;
    var p := TryRemapStep(Run(s, before));
    FlagIsPending(s, before);
    PassKeeps(Run(s, before));
    PassPairs(s.cfg, Run(s, before).m, b, j);
    PassIdempotent(s.cfg, Run(s, before).m);
    QuietRunMap(p, after);
    KeepsOrder(p, after);
    RoutesByMap(p, Run(p, after), address);
    if Pairs(s.cfg, PassTo(s.cfg, Run(s, before).m, b), b, j) {
      PairIsCool(s.cfg, Run(s, before).m, b, j);
    }
  }

  lemma PairIsCool(cfg: Config, m: Manager, b: nat, j: nat)
    requires cfg.Ok() && Inv(cfg, m) && cfg.policy == 1 && b < cfg.Total()
    requires forall k: nat | k < cfg.Total() && m.phy[k].temperature < cfg.remapT :: !Hot(cfg, m, k)
    ensures Pairs(cfg, PassTo(cfg, m, b), b, j) ==> j < cfg.Total() && !Hot(cfg, m, j)
  {
    hide PassTo, Paired;
    if j < cfg.Total() { PassToLaw(cfg, m, b, j); }
  }

  lemma {:induction false} KeepsOrder(s: Sys, es: seq<Event>)
    requires SysInv(s) && AllFit(s.cfg, es)
    ensures Run(s, es).order == s.order
    decreases |es|
  {
    hide SysInv, RunMechanism, Access;
    if es != [] { KeepsOrder(s, es[..|es| - 1]); }
  }

  /**
   The pass is lost when a request comes between the reading and tryRemapping: the sweep clears the flag that
   tryRemapping tests, and a usable bank that has just become hot stays usable.
   */
  lemma RequestSwallowsPass(s: Sys, v: nat, b: nat, t: real, address: nat, write: bool)
    requires SysInv(s) && v < s.cfg.vaults && b < s.cfg.banks && t >= s.cfg.high
    requires BankId(s.cfg, v, b) < s.cfg.Total() && Usable(s.m, BankId(s.cfg, v, b))
    ensures AllFit(s.cfg, [Heat(v, b, t), Request(address, write, false), TryRemap])
    ensures !Safe(s.cfg, Run(s, [Heat(v, b, t), Request(address, write, false), TryRemap]).m)
  {
    hide Safe, RequestStep, HeatStep, Cleared, Paired, Run, RunMechanism;
    var e1, e2 := Heat(v, b, t), Request(address, write, false);
    assert [] + [e1] == [e1] && [e1] + [e2] == [e1, e2] && [e1, e2] + [TryRemap] == [e1, e2, TryRemap];
    RunStep(s, [], e1);
    RunStep(s, [e1], e2);
    RunStep(s, [e1, e2], TryRemap);
    RunNothing(s);
    HeatKeeps(s, v, b, t);
    RequestKeeps(HeatStep(s, v, b, t), address, write, false);
    HotStaysUsable(s, v, b, t, address, write);
  }

  lemma RunNothing(s: Sys)
    requires SysInv(s)
    ensures Run(s, []) == s
  {
    hide SysInv, Next;
  }

  lemma HotStaysUsable(s: Sys, v: nat, b: nat, t: real, address: nat, write: bool)
    requires SysInv(s) && v < s.cfg.vaults && b < s.cfg.banks && t >= s.cfg.high
    requires BankId(s.cfg, v, b) < s.cfg.Total() && Usable(s.m, BankId(s.cfg, v, b))
    ensures SysInv(HeatStep(s, v, b, t))
    ensures !Safe(s.cfg, RequestStep(HeatStep(s, v, b, t), address, write, false).m)
  {
    HeatKeeps(s, v, b, t);
    var s1 := HeatStep(s, v, b, t);
    var m2, k := RequestStep(s1, address, write, false).m, BankId(s.cfg, v, b);
    assert m2 == ClearStats(s1.m);
    assert m2.banks[k].logical == k && !m2.banks[k].disabled && m2.phy[k].temperature == t;
  }

  /** After tryRemapping the manager is safe exactly when the pass ran or every usable bank was cool anyway. */
  lemma SafeExactly(s: Sys, es: seq<Event>)
    requires SysInv(s) && s.cfg.policy <= 1 && AllFit(s.cfg, es)
    ensures var r := Run(s, es);
            Safe(s.cfg, TryRemapStep(r).m) <==>
              || (s.enable && Pending(es, s.remapped))
              || forall b: nat | b < s.cfg.Total() && Usable(r.m, b) :: r.m.phy[b].temperature < s.cfg.high
  {
    hide Run, RunMechanism, Cleared, Paired;
    var r := Run(s, es);
    FlagIsPending(s, es);
    if s.enable && Pending(es, s.remapped) {
      PassIsSafe(s.cfg, r.m);
    } else {
      UsableCoolIsSafe(s.cfg, r.m);
    }
  }

  lemma UsableCoolIsSafe(cfg: Config, m: Manager)
    requires Matching(cfg.Total(), m)
    ensures Safe(cfg, m) <==> forall b: nat | b < cfg.Total() && Usable(m, b) :: m.phy[b].temperature < cfg.high
  {
    hide Paired;
    forall b: nat | b < cfg.Total() && !m.banks[b].disabled ensures Usable(m, m.banks[b].logical) {
      LogicalIsUsable(cfg.Total(), m, b);
    }
  }
}
