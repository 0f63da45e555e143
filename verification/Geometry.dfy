/** Set numbers, banks and rows (performance_model/stacked_dram_cntlr.cc, performance_model/remapping.cc). */
module Geometry {
  import opened Bits
  import opened Remapping

  /** A vault, a bank inside it and a row inside that. */
  datatype Place = Place(vault: nat, bank: nat, row: nat)

  predicate InRange(cfg: Config, p: Place) {
    p.vault < cfg.vaults && p.bank < cfg.banks && p.row < cfg.rows
  }

  /** The geometry the set numbers are built for. */
  predicate Regular(cfg: Config) {
    && IsPowerOfTwo(cfg.vaults) && IsPowerOfTwo(cfg.banks) && IsPowerOfTwo(cfg.rows)
    && cfg.vaults * cfg.banks * cfg.rows <= WORD
  }

  function Sets(cfg: Config): nat { cfg.vaults * cfg.banks * cfg.rows }

  /** One of the three configured orders; any other number is a configuration error. */
  predicate KnownMap(order: nat) { 1 <= order <= 3 }

  function SplitSetNum(cfg: Config, order: nat, s: nat): Place {
    var v, b, r := FloorLog2(cfg.vaults), FloorLog2(cfg.banks), FloorLog2(cfg.rows);
    if order == 1 then Place(Shr(Shr(s, r), b), LowBits(Shr(s, r), b), LowBits(s, r))
    else if order == 2 then Place(LowBits(Shr(s, r), v), Shr(Shr(s, r), v), LowBits(s, r))
    else if order == 3 then Place(LowBits(s, v), LowBits(Shr(s, v), b), Shr(Shr(s, v), b))
    else Place(0, 0, 0)
  }

  function GetSetNum(cfg: Config, order: nat, p: Place): nat {
    var v, b, r := FloorLog2(cfg.vaults), FloorLog2(cfg.banks), FloorLog2(cfg.rows);
    if order == 1 then Or(Or(Shl32(Shl32(p.vault, b), r), Shl32(p.bank, r)), p.row)
    else if order == 2 then Or(Or(Shl32(Shl32(p.bank, v), r), Shl32(p.vault, r)), p.row)
    else if order == 3 then Or(Or(Shl32(Shl32(p.row, v), b), Shl32(p.bank, v)), p.vault)
    else 0
  }

  // ----- Packing three fields into a word -----

  /** The number with fields h, m and l, where m and l have mb and lb bits. */
  function Packed(h: nat, m: nat, l: nat, mb: nat, lb: nat): nat {
    (h * Pow2(mb) + m) * Pow2(lb) + l
  }

  lemma Associate(x: nat, y: nat, z: nat)
    ensures x * y * z == x * (y * z) && x * z * y == x * (y * z)
  {
  }

  lemma NoWrap(x: nat, k: nat)
    requires x * Pow2(k) < WORD
    ensures Shl32(x, k) == x * Pow2(k)
  {
  }

  lemma ShiftTwice(h: nat, a: nat, b: nat)
    requires h * Pow2(a + b) < WORD
    ensures Shl32(Shl32(h, a), b) == h * Pow2(a + b)
  {
    Pow2Add(a, b);
    Associate(h, Pow2(a), Pow2(b));
    AtLeastOnce(Pow2(b), h * Pow2(a));
    NoWrap(h, a);
    NoWrap(h * Pow2(a), b);
  }

  /** The packed number as a sum of three shifted fields. */
  lemma PackedSum(h: nat, m: nat, l: nat, mb: nat, lb: nat)
    ensures Packed(h, m, l, mb, lb) == h * Pow2(mb + lb) + m * Pow2(lb) + l
  {
    Pow2Add(mb, lb);
    Associate(h, Pow2(mb), Pow2(lb));
    assert (h * Pow2(mb) + m) * Pow2(lb) == h * Pow2(mb) * Pow2(lb) + m * Pow2(lb);
  }

  lemma PackIsPacked(h: nat, m: nat, l: nat, mb: nat, lb: nat, a: nat, b: nat)
    requires m < Pow2(mb) && l < Pow2(lb) && Packed(h, m, l, mb, lb) < WORD
    requires a + b == mb + lb
    ensures Or(Or(Shl32(Shl32(h, a), b), Shl32(m, lb)), l) == Packed(h, m, l, mb, lb)
  {
    hide Or, Shl32, Pow2;
    PackedSum(h, m, l, mb, lb);
    ShiftTwice(h, a, b);
    NoWrap(m, lb);
    MidBelow(m, mb, lb);
    OrDisjoint(h, mb + lb, m * Pow2(lb));
    OrDisjoint(h * Pow2(mb) + m, lb, l);
  }

  lemma MidBelow(m: nat, mb: nat, lb: nat)
    requires m < Pow2(mb)
    ensures m * Pow2(lb) < Pow2(mb + lb)
  {
    Pow2Add(mb, lb);
    BelowProduct(m, 0, Pow2(lb), Pow2(mb));
  }

  lemma UnpackPacked(h: nat, m: nat, l: nat, mb: nat, lb: nat)
    requires m < Pow2(mb) && l < Pow2(lb)
    ensures LowBits(Packed(h, m, l, mb, lb), lb) == l
    ensures Shr(Packed(h, m, l, mb, lb), lb) == h * Pow2(mb) + m
    ensures LowBits(h * Pow2(mb) + m, mb) == m && Shr(h * Pow2(mb) + m, mb) == h
  {
    hide Pow2;
    DivModUnique(h * Pow2(mb) + m, l, Pow2(lb));
    DivModUnique(h, m, Pow2(mb));
  }

  lemma PackUnpacked(s: nat, mb: nat, lb: nat)
    ensures Packed(Shr(Shr(s, lb), mb), LowBits(Shr(s, lb), mb), LowBits(s, lb), mb, lb) == s
  {
    DivModIdentity(s, Pow2(lb));
    DivModIdentity(Shr(s, lb), Pow2(mb));
  }

  // ----- The three maps are packings -----

  function High(order: nat, p: Place): nat { if order == 1 then p.vault else if order == 2 then p.bank else p.row }
  function Mid(order: nat, p: Place): nat { if order == 2 then p.vault else p.bank }
  function Low(order: nat, p: Place): nat { if order == 3 then p.vault else p.row }
  function Size(cfg: Config): Place { Place(cfg.vaults, cfg.banks, cfg.rows) }
  function MidBits(cfg: Config, order: nat): nat { FloorLog2(Mid(order, Size(cfg))) }
  function LowBitsOf(cfg: Config, order: nat): nat { FloorLog2(Low(order, Size(cfg))) }

  function PackedPlace(cfg: Config, order: nat, p: Place): nat {
    Packed(High(order, p), Mid(order, p), Low(order, p), MidBits(cfg, order), LowBitsOf(cfg, order))
  }

  lemma GetIsPacked(cfg: Config, order: nat, p: Place)
    requires KnownMap(order) && PackedPlace(cfg, order, p) < WORD
    requires Mid(order, p) < Pow2(MidBits(cfg, order)) && Low(order, p) < Pow2(LowBitsOf(cfg, order))
    ensures GetSetNum(cfg, order, p) == PackedPlace(cfg, order, p)
  {
    var mb, lb := MidBits(cfg, order), LowBitsOf(cfg, order);
    PackIsPacked(High(order, p), Mid(order, p), Low(order, p), mb, lb, mb, lb);
    PackIsPacked(High(order, p), Mid(order, p), Low(order, p), mb, lb, lb, mb);
  }

  lemma SplitIsUnpacked(cfg: Config, order: nat, s: nat)
    requires KnownMap(order)
    ensures var p, mb, lb := SplitSetNum(cfg, order, s), MidBits(cfg, order), LowBitsOf(cfg, order);
            && High(order, p) == Shr(Shr(s, lb), mb) && Mid(order, p) == LowBits(Shr(s, lb), mb)
            && Low(order, p) == LowBits(s, lb)
  {
  }

  /** Splitting a set number and putting it together again gives it back: the "[ERROR]" check never fires. */
  lemma GetSplit(cfg: Config, order: nat, s: nat)
    requires KnownMap(order) && s < WORD
    ensures GetSetNum(cfg, order, SplitSetNum(cfg, order, s)) == s
  {
    var p := SplitSetNum(cfg, order, s);
    SplitIsUnpacked(cfg, order, s);
    PackUnpacked(s, MidBits(cfg, order), LowBitsOf(cfg, order));
    GetIsPacked(cfg, order, p);
  }

  lemma SplitGet(cfg: Config, order: nat, p: Place)
    requires KnownMap(order) && PackedPlace(cfg, order, p) < WORD
    requires Mid(order, p) < Pow2(MidBits(cfg, order)) && Low(order, p) < Pow2(LowBitsOf(cfg, order))
    ensures SplitSetNum(cfg, order, GetSetNum(cfg, order, p)) == p
  {
    GetIsPacked(cfg, order, p);
    UnpackPacked(High(order, p), Mid(order, p), Low(order, p), MidBits(cfg, order), LowBitsOf(cfg, order));
    SplitIsUnpacked(cfg, order, PackedPlace(cfg, order, p));
  }

  // ----- Bijection between set numbers and places -----

  lemma SizeProduct(cfg: Config, order: nat)
    requires KnownMap(order)
    ensures Sets(cfg) == High(order, Size(cfg)) * Mid(order, Size(cfg)) * Low(order, Size(cfg))
  {
    var v, b, r := cfg.vaults, cfg.banks, cfg.rows;
    assert v * b * r == b * v * r;
    assert v * b * r == r * b * v by { assert v * b == b * v; assert (b * v) * r == r * (b * v); Associate(r, b, v); }
  }

  lemma PackedBelow(h: nat, m: nat, l: nat, mb: nat, lb: nat, n: nat)
    requires h < n && m < Pow2(mb) && l < Pow2(lb)
    ensures Packed(h, m, l, mb, lb) < n * Pow2(mb) * Pow2(lb)
  {
    BelowProduct(h, m, Pow2(mb), n);
    BelowProduct(h * Pow2(mb) + m, l, Pow2(lb), n * Pow2(mb));
    assert Pow2(lb) * (n * Pow2(mb)) == n * Pow2(mb) * Pow2(lb);
  }

  /** Enough for a round trip: the two lower fields are exactly as wide as their sizes. */
  predicate Packable(cfg: Config, order: nat) {
    IsPowerOfTwo(Mid(order, Size(cfg))) && IsPowerOfTwo(Low(order, Size(cfg)))
  }

  /** Putting a place together and splitting it again gives it back; the number is below the number of sets. */
  lemma PlaceRoundTrip(cfg: Config, order: nat, p: Place)
    requires KnownMap(order) && Packable(cfg, order) && Sets(cfg) <= WORD && InRange(cfg, p)
    ensures GetSetNum(cfg, order, p) < Sets(cfg)
    ensures SplitSetNum(cfg, order, GetSetNum(cfg, order, p)) == p
  {
    SizeProduct(cfg, order);
    var mb, lb := MidBits(cfg, order), LowBitsOf(cfg, order);
    PackedBelow(High(order, p), Mid(order, p), Low(order, p), mb, lb, High(order, Size(cfg)));
    GetIsPacked(cfg, order, p);
    SplitGet(cfg, order, p);
  }

  /** The number of a place: vault, bank and row as the digits of a mixed-radix number, in the order of the map. */
  lemma SetNumLayout(cfg: Config, order: nat, p: Place)
    requires KnownMap(order) && Packable(cfg, order) && Sets(cfg) <= WORD && InRange(cfg, p)
    ensures GetSetNum(cfg, order, p) ==
      if order == 1 then (p.vault * cfg.banks + p.bank) * cfg.rows + p.row
      else if order == 2 then (p.bank * cfg.vaults + p.vault) * cfg.rows + p.row
      else (p.row * cfg.banks + p.bank) * cfg.vaults + p.vault
  {
    SizeProduct(cfg, order);
    var mb, lb := MidBits(cfg, order), LowBitsOf(cfg, order);
    PackedBelow(High(order, p), Mid(order, p), Low(order, p), mb, lb, High(order, Size(cfg)));
    GetIsPacked(cfg, order, p);
  }

  /** Every set number is the number of a place in range. */
  lemma SetRoundTrip(cfg: Config, order: nat, s: nat)
    requires KnownMap(order) && Packable(cfg, order) && s < Sets(cfg) <= WORD
    ensures InRange(cfg, SplitSetNum(cfg, order, s))
    ensures GetSetNum(cfg, order, SplitSetNum(cfg, order, s)) == s
  {
    GetSplit(cfg, order, s);
    SplitIsUnpacked(cfg, order, s);
    SizeProduct(cfg, order);
    HighBelow(s, High(order, Size(cfg)), MidBits(cfg, order), LowBitsOf(cfg, order));
  }

  lemma HighBelow(s: nat, h: nat, mb: nat, lb: nat)
    requires s < h * Pow2(mb) * Pow2(lb)
    ensures Shr(Shr(s, lb), mb) < h
  {
    QuotientBelow(s, Pow2(lb), h * Pow2(mb));
    QuotientBelow(Shr(s, lb), Pow2(mb), h);
  }

  /** The place of every in-range triple survives the round trip exactly when the two lower fields are powers of two. */
  lemma RoundTripExactly(cfg: Config, order: nat)
    requires KnownMap(order) && cfg.Ok() && Sets(cfg) <= WORD
    ensures Packable(cfg, order)
       <==> forall p: Place | InRange(cfg, p) :: SplitSetNum(cfg, order, GetSetNum(cfg, order, p)) == p
    ensures Packable(cfg, order)
       <==> exists i, j :: Mid(order, Size(cfg)) == Pow2(i) && Low(order, Size(cfg)) == Pow2(j)
  {
    PowersOfTwo(Mid(order, Size(cfg)));
    PowersOfTwo(Low(order, Size(cfg)));
    if Packable(cfg, order) {
      forall p: Place | InRange(cfg, p) ensures SplitSetNum(cfg, order, GetSetNum(cfg, order, p)) == p {
        PlaceRoundTrip(cfg, order, p);
      }
    } else {
      var mid, low := Mid(order, Size(cfg)), Low(order, Size(cfg));
      FloorLog2Bounds(mid);
      FloorLog2Bounds(low);
      var m := if IsPowerOfTwo(mid) then 0 else Pow2(FloorLog2(mid));
      var l := if IsPowerOfTwo(low) then 0 else Pow2(FloorLog2(low));
      var p := if order == 1 then Place(0, m, l) else if order == 2 then Place(m, 0, l) else Place(l, m, 0);
      assert InRange(cfg, p);
      SplitIsUnpacked(cfg, order, GetSetNum(cfg, order, p));
    }
  }

  // ----- Bank ids -----

  function BankId(cfg: Config, v: nat, b: nat): nat { v * cfg.banks + b }

  /** splitId of the remapping manager: an index bank * rows + row. */
  function SplitId(cfg: Config, idx: nat): Place
    requires cfg.Ok()
  {
    Place(idx / cfg.rows / cfg.banks, idx / cfg.rows % cfg.banks, idx % cfg.rows)
  }

  lemma BankIdInRange(cfg: Config, p: Place)
    requires InRange(cfg, p)
    ensures BankId(cfg, p.vault, p.bank) < cfg.Total()
  {
    BelowProduct(p.vault, p.bank, cfg.banks, cfg.vaults);
    assert cfg.banks * cfg.vaults == cfg.Total();
  }

  lemma SplitIdOf(cfg: Config, bank: nat, row: nat)
    requires cfg.Ok() && row < cfg.rows && bank < cfg.Total()
    ensures var p := SplitId(cfg, bank * cfg.rows + row);
            p.row == row && BankId(cfg, p.vault, p.bank) == bank && InRange(cfg, p)
  {
    DivModUnique(bank, row, cfg.rows);
    QuotientBelow(bank, cfg.banks, cfg.vaults);
  }

  lemma BankIdUnique(cfg: Config, p: Place, q: Place)
    requires InRange(cfg, p) && InRange(cfg, q)
    requires BankId(cfg, p.vault, p.bank) == BankId(cfg, q.vault, q.bank) && p.row == q.row
    ensures p == q
  {
    RepresentationUnique(p.vault, p.bank, q.vault, q.bank, cfg.banks);
  }

  /** The bank a set lies in. */
  function BankOf(cfg: Config, order: nat, s: nat): nat {
    var p := SplitSetNum(cfg, order, s);
    BankId(cfg, p.vault, p.bank)
  }

  function RowOf(cfg: Config, order: nat, s: nat): nat { SplitSetNum(cfg, order, s).row }

  /** A set is its bank and its row. */
  lemma SetIsBankAndRow(cfg: Config, order: nat, s: nat, s': nat)
    requires KnownMap(order) && Regular(cfg) && s < Sets(cfg) && s' < Sets(cfg)
    requires BankOf(cfg, order, s) == BankOf(cfg, order, s') && RowOf(cfg, order, s) == RowOf(cfg, order, s')
    ensures s == s'
  {
    SetRoundTrip(cfg, order, s);
    SetRoundTrip(cfg, order, s');
    BankIdUnique(cfg, SplitSetNum(cfg, order, s), SplitSetNum(cfg, order, s'));
  }

  lemma BankOfInRange(cfg: Config, order: nat, s: nat)
    requires KnownMap(order) && Regular(cfg) && s < Sets(cfg)
    ensures BankOf(cfg, order, s) < cfg.Total() && RowOf(cfg, order, s) < cfg.rows
  {
    SetRoundTrip(cfg, order, s);
    BankIdInRange(cfg, SplitSetNum(cfg, order, s));
  }

  /** Under the first address map a set number is bank * rows + row, the index of the remapping manager. */
  lemma SetIsManagerIndex(cfg: Config, s: nat)
    requires Regular(cfg) && s < Sets(cfg)
    ensures s == BankOf(cfg, 1, s) * cfg.rows + RowOf(cfg, 1, s)
  {
    SetRoundTrip(cfg, 1, s);
    SetNumLayout(cfg, 1, SplitSetNum(cfg, 1, s));
  }

  // ----- Routing -----

  /** getLogicalIndex: the place of the logical bank, same row. */
  function LogicalPlace(cfg: Config, m: Manager, p: Place): Place
    requires cfg.Ok() && InTables(cfg.Total(), m) && BankId(cfg, p.vault, p.bank) < cfg.Total()
  {
    SplitId(cfg, m.banks[BankId(cfg, p.vault, p.bank)].logical * cfg.rows + p.row)
  }

  /** getRemapSet: the set a request for `s` is sent to. */
  function RemapSet(cfg: Config, order: nat, m: Manager, s: nat): nat
    requires cfg.Ok() && InTables(cfg.Total(), m) && BankOf(cfg, order, s) < cfg.Total()
  {
    GetSetNum(cfg, order, LogicalPlace(cfg, m, SplitSetNum(cfg, order, s)))
  }

  /** The routed set is in range, in the logical bank, in the same row. */
  lemma RemapSetPlace(cfg: Config, order: nat, m: Manager, s: nat)
    requires KnownMap(order) && cfg.Ok() && Regular(cfg) && InTables(cfg.Total(), m) && s < Sets(cfg)
    ensures BankOf(cfg, order, s) < cfg.Total()
    ensures var t := RemapSet(cfg, order, m, s);
            && t < Sets(cfg) && RowOf(cfg, order, t) == RowOf(cfg, order, s)
            && BankOf(cfg, order, t) == m.banks[BankOf(cfg, order, s)].logical
  {
    BankOfInRange(cfg, order, s);
    var p := SplitSetNum(cfg, order, s);
    SplitIdOf(cfg, m.banks[BankOf(cfg, order, s)].logical, p.row);
    PlaceRoundTrip(cfg, order, LogicalPlace(cfg, m, p));
  }

  /** Routing twice is routing once. */
  lemma RemapSetIdempotent(cfg: Config, order: nat, m: Manager, s: nat)
    requires KnownMap(order) && cfg.Ok() && Regular(cfg) && Matching(cfg.Total(), m) && s < Sets(cfg)
    ensures BankOf(cfg, order, s) < cfg.Total()
    ensures var t := RemapSet(cfg, order, m, s);
            BankOf(cfg, order, t) < cfg.Total() && RemapSet(cfg, order, m, t) == t
  {
    RemapSetPlace(cfg, order, m, s);
    var t := RemapSet(cfg, order, m, s);
    RemapSetPlace(cfg, order, m, t);
    assert Paired(m, BankOf(cfg, order, s));
    assert m.banks[BankOf(cfg, order, t)].logical == BankOf(cfg, order, t);
    SetIsBankAndRow(cfg, order, RemapSet(cfg, order, m, t), t);
  }

  /** Sets routed to the same one lie in the same row of the target's bank or of its only guest. */
  lemma RemapSetPreimage(cfg: Config, order: nat, m: Manager, s: nat)
    requires KnownMap(order) && cfg.Ok() && Regular(cfg) && Matching(cfg.Total(), m) && s < Sets(cfg)
    ensures BankOf(cfg, order, s) < cfg.Total()
    ensures var t := RemapSet(cfg, order, m, s);
            && t < Sets(cfg) && BankOf(cfg, order, t) < cfg.Total() && RowOf(cfg, order, s) == RowOf(cfg, order, t)
            && (BankOf(cfg, order, s) == BankOf(cfg, order, t)
                || BankOf(cfg, order, s) == m.banks[BankOf(cfg, order, t)].remap)
  {
    RemapSetPlace(cfg, order, m, s);
    assert Paired(m, BankOf(cfg, order, s));
  }

  /** At most two sets are routed to the same one. */
  lemma RemapSetTwoToOne(cfg: Config, order: nat, m: Manager, s1: nat, s2: nat, s3: nat)
    requires KnownMap(order) && cfg.Ok() && Regular(cfg) && Matching(cfg.Total(), m)
    requires s1 < Sets(cfg) && s2 < Sets(cfg) && s3 < Sets(cfg)
    ensures BankOf(cfg, order, s1) < cfg.Total() && BankOf(cfg, order, s2) < cfg.Total()
    ensures BankOf(cfg, order, s3) < cfg.Total()
    ensures RemapSet(cfg, order, m, s1) == RemapSet(cfg, order, m, s2) == RemapSet(cfg, order, m, s3)
            ==> s1 == s2 || s1 == s3 || s2 == s3
  {
    hide Paired, RemapSet, BankOf, RowOf;
    RemapSetPreimage(cfg, order, m, s1);
    RemapSetPreimage(cfg, order, m, s2);
    RemapSetPreimage(cfg, order, m, s3);
    if RemapSet(cfg, order, m, s1) == RemapSet(cfg, order, m, s2) == RemapSet(cfg, order, m, s3) {
      if BankOf(cfg, order, s1) == BankOf(cfg, order, s2) {
        SetIsBankAndRow(cfg, order, s1, s2);
      } else if BankOf(cfg, order, s1) == BankOf(cfg, order, s3) {
        SetIsBankAndRow(cfg, order, s1, s3);
      } else {
        SetIsBankAndRow(cfg, order, s2, s3);
      }
    }
  }

  /** Under every policy but 1 routing is the identity. */
  lemma RemapSetIdentity(cfg: Config, order: nat, m: Manager, s: nat)
    requires KnownMap(order) && cfg.Ok() && Regular(cfg) && Inv(cfg, m) && cfg.policy != 1 && s < Sets(cfg)
    ensures BankOf(cfg, order, s) < cfg.Total() && RemapSet(cfg, order, m, s) == s
  {
    RemapSetPlace(cfg, order, m, s);
    assert Paired(m, BankOf(cfg, order, s));
    SetIsBankAndRow(cfg, order, RemapSet(cfg, order, m, s), s);
  }
}
