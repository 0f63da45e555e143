/** First-touch address translation (performance_model/dram_perf_model_normal.cc). */
module PageTable {
  import opened Bits

  /** Virtual page tags seen so far, and the next free physical page tag. */
  datatype Table = Table(pages: map<nat, nat>, next: nat)

  const PAGE_BITS: nat := 12

  function Initial(): Table { Table(map[], 0) }

  /** Distinct tags get distinct pages, and the pages in use are exactly 0 .. next. */
  ghost predicate Dense(t: Table) {
    && (forall v | v in t.pages :: t.pages[v] < t.next)
    && (forall v, w | v in t.pages && w in t.pages && t.pages[v] == t.pages[w] :: v == w)
    && (forall p: nat | p < t.next :: InUse(t, p))
  }

  ghost predicate InUse(t: Table, p: nat) {
    exists v :: v in t.pages && t.pages[v] == p
  }

  function Touch(t: Table, tag: nat): (r: Table)
    ensures tag in r.pages
  {
    if tag in t.pages then t else Table(t.pages[tag := t.next], t.next + 1)
  }

  /** translateAddress: the physical address, once the page is in the table. */
  function Physical(t: Table, address: nat): nat
    requires Shr(address, PAGE_BITS) in t.pages
  {
    Or(t.pages[Shr(address, PAGE_BITS)] * Pow2(PAGE_BITS), LowBits(address, PAGE_BITS))
  }

  /** The physical address is the page's number and the offset inside the 4096 bytes of the page. */
  lemma PhysicalLaw(t: Table, address: nat)
    ensures Shr(address, PAGE_BITS) == address / 4096
    ensures address / 4096 in t.pages ==> Physical(t, address) == t.pages[address / 4096] * 4096 + address % 4096
  {
    PageIs4096();
    var tag: nat := address / 4096;
    if tag in t.pages {
      var offset: nat := address % 4096;
      OrDisjoint(t.pages[tag], PAGE_BITS, offset);
    }
  }

  lemma PageIs4096()
    ensures Pow2(PAGE_BITS) == 4096
  {
    Pow2Add(6, 6);
    Pow2Add(3, 3);
    assert Pow2(3) == 8;
  }

  lemma TouchKeepsDense(t: Table, tag: nat)
    requires Dense(t)
    ensures Dense(Touch(t, tag))
  {
    var r := Touch(t, tag);
    forall p: nat | p < r.next ensures InUse(r, p) {
      if p < t.next {
        assert InUse(t, p);
        var v :| v in t.pages && t.pages[v] == p;
        assert v in r.pages && r.pages[v] == p;
      } else {
        assert tag in r.pages && r.pages[tag] == p;
      }
    }
  }

  /** Physical addresses tell virtual addresses apart. */
  lemma PhysicalInjective(t: Table, a: nat, b: nat)
    requires Dense(t) && Shr(a, PAGE_BITS) in t.pages && Shr(b, PAGE_BITS) in t.pages
    ensures Physical(t, a) == Physical(t, b) <==> a == b
  {
    var va: nat, vb: nat := Shr(a, PAGE_BITS), Shr(b, PAGE_BITS);
    var oa, ob := LowBits(a, PAGE_BITS), LowBits(b, PAGE_BITS);
    hide Pow2, Or;
    OrDisjoint(t.pages[va], PAGE_BITS, oa);
    OrDisjoint(t.pages[vb], PAGE_BITS, ob);
    DivModIdentity(a, Pow2(PAGE_BITS));
    DivModIdentity(b, Pow2(PAGE_BITS));
    if Physical(t, a) == Physical(t, b) {
      RepresentationUnique(t.pages[va], oa, t.pages[vb], ob, Pow2(PAGE_BITS));
    }
  }

  // ----- SplitAddress -----

  const PAGE_SIZE: nat := 1984
  const BLOCK_SIZE: nat := 64

  /** Where an address falls in the cache. */
  datatype Location = Location(setN: nat, tag: nat, offset: nat)

  function Locate(sets: nat, physical: nat): Location {
    Location(LowBits(physical / PAGE_SIZE, FloorLog2(sets)), physical / PAGE_SIZE, physical % PAGE_SIZE)
  }

  /**
   The address is tag times page size plus offset, and the set is the tag modulo the number of sets; with a number of
   sets that is no power of two, modulo the largest power of two below it.
   */
  lemma LocateLaw(sets: nat, physical: nat, k: nat)
    requires Pow2(k) <= sets < 2 * Pow2(k)
    ensures var l := Locate(sets, physical);
            && physical == l.tag * 1984 + l.offset && l.offset < 1984
            && l.setN == l.tag % Pow2(k) && l.setN < sets && l.offset / BLOCK_SIZE < 31
  {
    FloorLog2Bounds(sets);
    Pow2Between(k, FloorLog2(sets));
  }

  lemma {:induction false} Pow2Between(k: nat, j: nat)
    requires Pow2(k) < 2 * Pow2(j) && Pow2(j) < 2 * Pow2(k)
    ensures k == j
  {
    if k > 0 && j > 0 { Pow2Between(k - 1, j - 1); }
  }

  /** The set number is in range and the block number fits the 31 blocks of a page. */
  lemma LocateInRange(sets: nat, physical: nat)
    requires sets > 0
    ensures Locate(sets, physical).setN < sets
    ensures Locate(sets, physical).offset / BLOCK_SIZE < 31
  {
    FloorLog2Bounds(sets);
    LocateLaw(sets, physical, FloorLog2(sets));
  }

  /** Tag and offset determine the physical address. */
  lemma LocateInjective(sets: nat, p: nat, q: nat)
    requires Locate(sets, p).tag == Locate(sets, q).tag && Locate(sets, p).offset == Locate(sets, q).offset
    ensures p == q
  {
  }

  // ----- Runs -----

  /** The table after translating a list of addresses. */
  function After(t: Table, addresses: seq<nat>): (r: Table) {
    if addresses == [] then t
    else Touch(After(t, addresses[..|addresses| - 1]), Shr(addresses[|addresses| - 1], PAGE_BITS))
  }

  ghost predicate Extends(t: Table, r: Table) {
    forall v | v in t.pages :: v in r.pages && r.pages[v] == t.pages[v]
  }

  lemma {:induction false} AfterKeeps(t: Table, addresses: seq<nat>)
    requires Dense(t)
    ensures Dense(After(t, addresses)) && Extends(t, After(t, addresses))
  {
    if addresses != [] {
      var front := addresses[..|addresses| - 1];
      AfterKeeps(t, front);
      TouchKeepsDense(After(t, front), Shr(addresses[|addresses| - 1], PAGE_BITS));
    }
  }

  lemma {:induction false} AfterSplit(t: Table, xs: seq<nat>, ys: seq<nat>)
    ensures After(t, xs + ys) == After(After(t, xs), ys)
  {
    if ys == [] {
      assert xs + ys == xs;
    } else {
      AfterSplit(t, xs, ys[..|ys| - 1]);
      assert (xs + ys)[..|xs + ys| - 1] == xs + ys[..|ys| - 1];
    }
  }

  /** The physical address handed out when access `i` of a run is translated. */
  function Answer(addresses: seq<nat>, i: nat): nat
    requires i < |addresses|
  {
    assert addresses[..i + 1][..i] == addresses[..i];
    Physical(After(Initial(), addresses[..i + 1]), addresses[i])
  }

  /** A translation, once given, stays. */
  lemma PhysicalStable(t: Table, r: Table, a: nat)
    requires Extends(t, r) && Shr(a, PAGE_BITS) in t.pages
    ensures Shr(a, PAGE_BITS) in r.pages && Physical(r, a) == Physical(t, a)
  {
  }

  lemma AnswerIsFinal(addresses: seq<nat>, i: nat)
    requires i < |addresses|
    ensures var t := After(Initial(), addresses);
            Dense(t) && Shr(addresses[i], PAGE_BITS) in t.pages && Answer(addresses, i) == Physical(t, addresses[i])
  {
    hide Shr, Physical, Dense;
    var xs, ys := addresses[..i + 1], addresses[i + 1..];
    assert xs + ys == addresses;
    assert xs[..i] == addresses[..i];
    StartsDense();
    AfterSplit(Initial(), xs, ys);
    AfterKeeps(Initial(), xs);
    AfterKeeps(After(Initial(), xs), ys);
    PhysicalStable(After(Initial(), xs), After(Initial(), addresses), addresses[i]);
  }

  lemma StartsDense()
    ensures Dense(Initial())
  {
  }

  /** Over a whole run, two accesses land on the same tag and offset exactly when they use the same address. */
  lemma RunSeparates(addresses: seq<nat>, sets: nat, i: nat, j: nat)
    requires i < |addresses| && j < |addresses|
    ensures var p, q := Locate(sets, Answer(addresses, i)), Locate(sets, Answer(addresses, j));
            p.tag == q.tag && p.offset == q.offset <==> addresses[i] == addresses[j]
  {
    AnswerIsFinal(addresses, i);
    AnswerIsFinal(addresses, j);
    PhysicalInjective(After(Initial(), addresses), addresses[i], addresses[j]);
    if Locate(sets, Answer(addresses, i)).tag == Locate(sets, Answer(addresses, j)).tag
       && Locate(sets, Answer(addresses, i)).offset == Locate(sets, Answer(addresses, j)).offset {
      LocateInjective(sets, Answer(addresses, i), Answer(addresses, j));
    }
  }

  /** The virtual pages a list of addresses uses. */
  function Pages(addresses: seq<nat>): set<nat> {
    if addresses == [] then {} else Pages(addresses[..|addresses| - 1]) + {addresses[|addresses| - 1] / 4096}
  }

  lemma {:induction false} AfterCounts(addresses: seq<nat>)
    ensures var t := After(Initial(), addresses);
            t.pages.Keys == Pages(addresses) && t.next == |Pages(addresses)|
  {
    if addresses != [] {
      var front, a := addresses[..|addresses| - 1], addresses[|addresses| - 1];
      AfterCounts(front);
      PhysicalLaw(Initial(), a);
    }
  }

  /** First touch: access `i`, whose page was first used by access `f`, gets the number of pages used before `f`. */
  lemma AnswerLaw(addresses: seq<nat>, i: nat, f: nat)
    requires f <= i < |addresses| && addresses[f] / 4096 == addresses[i] / 4096
    requires addresses[i] / 4096 !in Pages(addresses[..f])
    ensures Answer(addresses, i) == |Pages(addresses[..f])| * 4096 + addresses[i] % 4096
  {
    hide Physical, Shr, Dense, Pages;
    var xs, ys := addresses[..f + 1], addresses[f + 1..];
    assert xs + ys == addresses;
    FirstTouch(addresses, f);
    StartsDense();
    AfterSplit(Initial(), xs, ys);
    AfterKeeps(Initial(), xs);
    AfterKeeps(After(Initial(), xs), ys);
    AnswerIsFinal(addresses, i);
    PhysicalLaw(After(Initial(), addresses), addresses[i]);
  }

  lemma FirstTouch(addresses: seq<nat>, f: nat)
    requires f < |addresses| && addresses[f] / 4096 !in Pages(addresses[..f])
    ensures var t := After(Initial(), addresses[..f + 1]);
            addresses[f] / 4096 in t.pages && t.pages[addresses[f] / 4096] == |Pages(addresses[..f])|
  {
    hide Pages, Shr;
    AfterCounts(addresses[..f]);
    PhysicalLaw(Initial(), addresses[f]);
    assert addresses[..f + 1][..f] == addresses[..f];
  }

  /** Over a whole run, two accesses share a set exactly when their tags are congruent modulo the number of sets. */
  lemma RunShares(addresses: seq<nat>, sets: nat, i: nat, j: nat)
    requires i < |addresses| && j < |addresses| && IsPowerOfTwo(sets)
    ensures var p, q := Locate(sets, Answer(addresses, i)), Locate(sets, Answer(addresses, j));
            && (p.setN == q.setN <==> p.tag % sets == q.tag % sets)
            && p.tag == Answer(addresses, i) / 1984 && p.setN == p.tag % sets
  {
    LocateLaw(sets, Answer(addresses, i), FloorLog2(sets));
    LocateLaw(sets, Answer(addresses, j), FloorLog2(sets));
  }

  /** Touching the pages one after the other makes the translation the identity. */
  function Upwards(n: nat): (r: seq<nat>)
    ensures |r| == n && forall i | 0 <= i < n :: r[i] == i * 4096
  {
    seq(n, i => i * 4096)
  }

  /** Every set number is reached by some access of some run. */
  lemma EverySetReached(sets: nat, n: nat) returns (addresses: seq<nat>)
    requires IsPowerOfTwo(sets) && n < sets
    ensures addresses != [] && Locate(sets, Answer(addresses, |addresses| - 1)).setN == n
  {
    var a: nat := n * 1984;
    var page: nat := a / 4096;
    addresses := Upwards(page) + [a];
    assert addresses[..page] == Upwards(page);
    UpwardsPages(page);
    AnswerLaw(addresses, page, page);
    LocateLaw(sets, a, FloorLog2(sets));
    SmallTag(n, sets);
  }

  lemma SmallTag(n: nat, sets: nat)
    requires n < sets
    ensures n * 1984 / 1984 == n && n % sets == n
  {
    DivModUnique(n, 0, 1984);
    DivModUnique(0, n, sets);
  }

  lemma {:induction false} UpwardsPages(n: nat)
    ensures |Pages(Upwards(n))| == n && forall p | p in Pages(Upwards(n)) :: 0 <= p < n
  {
    if n != 0 {
      UpwardsPages(n - 1);
      assert Upwards(n)[..n - 1] == Upwards(n - 1);
      DivModUnique(n - 1, 0, 4096);
    }
  }
}
