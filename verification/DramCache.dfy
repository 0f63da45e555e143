/** Pages and sets of the stacked DRAM cache (performance_model/dram_perf_model_normal.cc). */
module DramCache {
  import opened Bits
  import opened Options

  /** `used` is the replacement counter, `dirty` the word of dirty bits. */
  datatype Page = Page(tag: Option<nat>, dirty: nat, used: nat)

  type Set = seq<Page>

  const EMPTY: Page := Page(None, 0, 0)

  function PopCount(x: nat): nat {
    if x == 0 then 0 else x % 2 + PopCount(x / 2)
  }

  function Dirty(ways: Set): nat {
    if ways == [] then 0 else PopCount(ways[0].dirty) + Dirty(ways[1..])
  }

  function TotalDirty(sets: seq<Set>): nat {
    if sets == [] then 0 else Dirty(sets[0]) + TotalDirty(sets[1..])
  }

  ghost predicate Vacant(ways: Set) {
    forall i | 0 <= i < |ways| :: ways[i].tag == None
  }

  /** The replacement counters never leave zero. */
  ghost predicate Unused(ways: Set) {
    forall i | 0 <= i < |ways| :: ways[i].used == 0
  }

  /** No page is in a set twice. */
  ghost predicate NoneTwice(ways: Set) {
    forall i, j | 0 <= i < j < |ways| && ways[i].tag != None :: ways[i].tag != ways[j].tag
  }

  ghost predicate Tidy(ways: Set) { Unused(ways) && NoneTwice(ways) }

  // ----- Counting -----

  lemma {:induction false} PopCountOr(x: nat, k: nat)
    ensures PopCount(Or(x, Pow2(k))) == PopCount(x) + if Bit(x, k) then 0 else 1
  {
    var y := Or(x / 2, Pow2(k) / 2);
    OrHalves(x, Pow2(k));
    PopCountDouble(y, if x % 2 == 1 || Pow2(k) % 2 == 1 then 1 else 0);
    PopCountDouble(x / 2, x % 2);
    if k == 0 {
      assert Pow2(0) == 1;
      assert Or(x / 2, 0) == x / 2;
      assert Shr(x, 0) == x;
    } else {
      assert Pow2(k) == 2 * Pow2(k - 1);
      PopCountOr(x / 2, k - 1);
      DivDiv(x, 2, Pow2(k - 1));
    }
  }

  lemma PopCountDouble(x: nat, b: nat)
    requires b < 2
    ensures PopCount(2 * x + b) == b + PopCount(x)
  {
    assert (2 * x + b) / 2 == x && (2 * x + b) % 2 == b;
  }

  lemma {:induction false} DirtyUpdate(ways: Set, i: nat, p: Page)
    requires i < |ways|
    ensures Dirty(ways[i := p]) + PopCount(ways[i].dirty) == Dirty(ways) + PopCount(p.dirty)
  {
    if i == 0 {
      assert ways[0 := p][1..] == ways[1..];
    } else {
      DirtyUpdate(ways[1..], i - 1, p);
      assert ways[i := p][1..] == ways[1..][i - 1 := p];
    }
  }

  lemma {:induction false} TotalDirtyUpdate(sets: seq<Set>, s: nat, x: Set)
    requires s < |sets|
    ensures TotalDirty(sets[s := x]) + Dirty(sets[s]) == TotalDirty(sets) + Dirty(x)
  {
    if s == 0 {
      assert sets[0 := x][1..] == sets[1..];
    } else {
      TotalDirtyUpdate(sets[1..], s - 1, x);
      assert sets[s := x][1..] == sets[1..][s - 1 := x];
    }
  }

  lemma {:induction false} VacantClean(ways: Set)
    requires forall i | 0 <= i < |ways| :: ways[i].dirty == 0
    ensures Dirty(ways) == 0
  {
    if ways != [] { VacantClean(ways[1..]); }
  }

  lemma {:induction false} DirtyPrefix(ways: Set, i: nat)
    requires i < |ways|
    ensures Dirty(ways[..i + 1]) == Dirty(ways[..i]) + PopCount(ways[i].dirty)
  {
    if i == 0 {
      assert ways[..1][1..] == [];
    } else {
      DirtyPrefix(ways[1..], i - 1);
      assert ways[..i + 1][1..] == ways[1..][..i];
      assert ways[..i][1..] == ways[1..][..i - 1];
    }
  }

  lemma {:induction false} TotalDirtyPrefix(sets: seq<Set>, i: nat)
    requires i < |sets|
    ensures TotalDirty(sets[..i + 1]) == TotalDirty(sets[..i]) + Dirty(sets[i])
  {
    if i == 0 {
      assert sets[..1][1..] == [];
    } else {
      TotalDirtyPrefix(sets[1..], i - 1);
      assert sets[..i + 1][1..] == sets[1..][..i];
      assert sets[..i][1..] == sets[1..][..i - 1];
    }
  }

  // ----- Operations -----

  function Flushed(ways: Set): (r: Set)
    ensures |r| == |ways| && forall i | 0 <= i < |r| :: r[i] == EMPTY
  {
    seq(|ways|, _ => EMPTY)
  }

  /** The first way holding `tag`, or |ways|. */
  function Find(ways: Set, tag: nat): (i: nat)
    ensures i <= |ways| && (i < |ways| ==> ways[i].tag == Some(tag))
    ensures forall j | 0 <= j < i :: ways[j].tag != Some(tag)
  {
    if ways == [] || ways[0].tag == Some(tag) then 0 else 1 + Find(ways[1..], tag)
  }

  /** getReplacementIndex: the first way with the largest counter; way 0 when all are zero. */
  function Victim(ways: Set): (i: nat)
    requires |ways| > 0
    ensures i < |ways|
    ensures forall j | 0 <= j < |ways| :: ways[j].used <= ways[i].used
    ensures forall j | 0 <= j < i :: ways[j].used < ways[i].used
  {
    VictimFrom(ways, |ways|)
  }

  function VictimFrom(ways: Set, n: nat): (i: nat)
    requires 0 < |ways| && n <= |ways|
    ensures i < |ways| && (i < n || i == 0)
    ensures forall j | 0 <= j < n :: ways[j].used <= ways[i].used
    ensures forall j | 0 <= j < i :: ways[j].used < ways[i].used
  {
    if n == 0 then 0
    else var i := VictimFrom(ways, n - 1); if ways[n - 1].used > ways[i].used then n - 1 else i
  }

  /** accessBlock: a write sets the dirty bit of its block. */
  function Mark(p: Page, block: nat, write: bool): Page {
    if write then p.(dirty := Or(p.dirty, Pow2(block))) else p
  }

  /** A write makes its own block dirty and no other. */
  lemma MarkBit(p: Page, block: nat, write: bool, k: nat)
    ensures Bit(Mark(p, block, write).dirty, k) <==> Bit(p.dirty, k) || (write && k == block)
  {
    OrBit(p.dirty, Pow2(block), k);
    Pow2Bit(block, k);
  }

  /** The page is in the set and the block is clean: a write will turn it dirty. */
  ghost predicate HoldsClean(ways: Set, tag: nat, block: nat) {
    exists i :: 0 <= i < |ways| && ways[i].tag == Some(tag) && !Bit(ways[i].dirty, block)
  }

  /** What one access does to its set, and how many blocks it writes back. */
  datatype Accessed = Accessed(ways: Set, back: nat)

  function Access(ways: Set, tag: nat, block: nat, write: bool): Accessed
    requires |ways| > 0
  {
    var i := Find(ways, tag);
    if i < |ways| then
      Accessed(ways[i := Mark(ways[i], block, write)], 0)
    else
      var v := Victim(ways);
      Accessed(ways[v := Page(Some(tag), 0, 0)], PopCount(ways[v].dirty))
  }

  /** Dirty blocks are conserved: written back, still there, or newly turned. */
  lemma AccessConserves(ways: Set, tag: nat, block: nat, write: bool)
    requires |ways| > 0 && NoneTwice(ways)
    ensures var r := Access(ways, tag, block, write);
            && |r.ways| == |ways|
            && r.back + Dirty(r.ways) == Dirty(ways) + if write && HoldsClean(ways, tag, block) then 1 else 0
  {
    var i := Find(ways, tag);
    if i < |ways| {
      DirtyUpdate(ways, i, Mark(ways[i], block, write));
      PopCountOr(ways[i].dirty, block);
    } else {
      DirtyUpdate(ways, Victim(ways), Page(Some(tag), 0, 0));
    }
  }

  /** Afterwards the page is in the set, and at most one way is different. */
  lemma AccessInstalls(ways: Set, tag: nat, block: nat, write: bool)
    requires |ways| > 0
    ensures var r := Access(ways, tag, block, write).ways;
      && Find(r, tag) < |r| == |ways|
      && exists v: nat :: v < |ways| && r[v].tag == Some(tag) && r == ways[v := r[v]]
  {
    var r := Access(ways, tag, block, write).ways;
    var v := if Find(ways, tag) < |ways| then Find(ways, tag) else Victim(ways);
    assert r[v].tag == Some(tag) && r == ways[v := r[v]];
  }

  /**
   From `before` to `after`, `back` blocks being written back: a page that was there has its earlier dirty bits, plus
   that of the block if written; a page that was not there is in way 0, clean, and the dirty blocks of way 0 went back.
   */
  ghost predicate Handled(before: Set, after: Set, back: nat, tag: nat, block: nat, write: bool) {
    && |before| == |after| > 0
    && if forall i | 0 <= i < |before| :: before[i].tag != Some(tag)
       then back == PopCount(before[0].dirty) && after == before[0 := Page(Some(tag), 0, 0)]
       else back == 0 && forall i | 0 <= i < |before| ::
         if before[i].tag == Some(tag) then Written(before[i], after[i], block, write) else after[i] == before[i]
  }

  ghost predicate Written(before: Page, after: Page, block: nat, write: bool) {
    && after == before.(dirty := after.dirty)
    && forall k: nat :: Bit(after.dirty, k) <==> Bit(before.dirty, k) || (write && k == block)
  }

  lemma AccessServes(ways: Set, tag: nat, block: nat, write: bool)
    requires |ways| > 0 && Tidy(ways)
    ensures var r := Access(ways, tag, block, write);
            Handled(ways, r.ways, r.back, tag, block, write) && Tidy(r.ways)
  {
    var i := Find(ways, tag);
    if i < |ways| {
      forall k: nat
        ensures Bit(Mark(ways[i], block, write).dirty, k) <==> Bit(ways[i].dirty, k) || (write && k == block)
      {
        MarkBit(ways[i], block, write, k);
      }
    } else {
      VictimIsFirst(ways);
    }
  }

  /** The victim is always way 0: no counter ever leaves zero. */
  lemma VictimIsFirst(ways: Set)
    requires |ways| > 0 && Unused(ways)
    ensures Victim(ways) == 0
  {
    assert ways[0].used == ways[Victim(ways)].used;
  }

  lemma AccessKeepsUnused(ways: Set, tag: nat, block: nat, write: bool)
    requires |ways| > 0 && Unused(ways)
    ensures Unused(Access(ways, tag, block, write).ways)
  {
  }

  // ----- The loops of the source -----

  /** The bit-counting loop of invalidate and getDirtyBlocks. */
  method CountBits(word: nat) returns (n: nat)
    ensures n == PopCount(word)
  {
    n := 0;
    var d := word;
    while d > 0
      invariant n + PopCount(d) == PopCount(word)
    {
      if d % 2 == 1 {
        n := n + 1;
      }
      d := d / 2;
    }
  }

  method DirtyBlocks(ways: Set) returns (n: nat)
    ensures n == Dirty(ways)
  {
    n := 0;
    for i := 0 to |ways|
      invariant n == Dirty(ways[..i])
    {
      var k := CountBits(ways[i].dirty);
      n := n + k;
      DirtyPrefix(ways, i);
    }
    assert ways[..|ways|] == ways;
  }

  /** invalidateContent: empties every way and reports the dirty blocks it held. */
  method InvalidateContent(ways: Set) returns (r: Set, back: nat)
    ensures r == Flushed(ways) && back == Dirty(ways)
  {
    r, back := ways, 0;
    for i := 0 to |ways|
      invariant |r| == |ways| && back == Dirty(ways[..i])
      invariant forall j | 0 <= j < i :: r[j] == EMPTY
      invariant forall j | i <= j < |ways| :: r[j] == ways[j]
    {
      var k := CountBits(r[i].dirty);
      back := back + k;
      DirtyPrefix(ways, i);
      r := r[i := EMPTY];
    }
    assert ways[..|ways|] == ways;
  }

  method ReplacementIndex(ways: Set) returns (index: nat)
    requires |ways| > 0
    ensures index == Victim(ways)
  {
    var most := 0;
    index := 0;
    for i := 0 to |ways|
      invariant index == VictimFrom(ways, i)
      invariant i == 0 ==> most == 0
      invariant i > 0 ==> most == ways[index].used
    {
      if ways[i].used > most {
        most := ways[i].used;
        index := i;
      }
    }
  }
}
