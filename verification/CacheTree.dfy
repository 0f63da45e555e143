/** The cache controllers as objects that call each other, against the value model (cache_cntlr.cc). */
module CacheTree {
  import opened BackInvalidation
  import opened Options

  class CacheCntlr {
    /** The state and data of the line under eviction, or None when the cache does not hold it. */
    var line: Option<Copy>
    /** The evict buffer, set while this cache is the one evicting. */
    var evicting: Option<Block>
    const prev: seq<CacheCntlr>
    ghost const repr: set<CacheCntlr>
    ghost const height: nat

    constructor (below: seq<CacheCntlr>, l: Option<Copy>)
      requires forall i | 0 <= i < |below| :: below[i].Tree()
      requires forall i, j | 0 <= i < j < |below| :: below[i].repr !! below[j].repr
      ensures Tree() && prev == below && line == l && evicting == None && fresh(this)
    {
      prev, line, evicting := below, l, None;
      repr := {this} + set i, c | 0 <= i < |below| && c in below[i].repr :: c;
      height := 1 + MaxHeight(below);
      new;
      HeightsBelow(below);
    }

    /** A tree: the parts are disjoint and lower. The structure never changes. */
    ghost predicate Tree()
      decreases height
    {
      && this in repr
      && (forall i | 0 <= i < |prev| ::
            prev[i].height < height && prev[i].repr <= repr && this !in prev[i].repr && prev[i].Tree())
      && (forall i, j | 0 <= i < j < |prev| :: prev[i].repr !! prev[j].repr)
    }

    ghost function Snapshot(): Cache
      requires Tree()
      reads repr
      decreases height
    {
      Cache(line, seq(|prev|, (i: int) requires 0 <= i < |prev| && Tree() reads repr => prev[i].Snapshot()))
    }

    /** The snapshots of the previous-level caches. */
    ghost function Snaps(): (r: seq<Cache>)
      requires Tree()
      reads repr
      ensures |r| == |prev| && r == Snapshot().prev
    {
      Snapshot().prev
    }

    /** No cache of the tree is in the middle of an eviction. */
    ghost predicate Idle()
      reads repr
    {
      forall c | c in repr :: c.evicting == None
    }

    method WriteCacheBlock(d: Block)
      requires evicting.Some? || Dirty(line)
      modifies this
      ensures if old(evicting).Some? then evicting == Some(d) && line == old(line)
              else evicting == old(evicting) && line == Written(old(line), d)
    {
      if evicting.Some? {
        evicting := Some(d);
      } else {
        assert line.Some? && line.value.state == Modified;
        line := Some(line.value.(data := d));
      }
    }

    method InvalidateCacheBlock()
      requires line.Some? && line.value.state != Modified
      modifies this`line
      ensures line == None
    {
      line := None;
    }

    /** No cache above this one is in the middle of an eviction. */
    ghost predicate IdleAbove()
      reads repr
    {
      forall c | c in repr && c != this :: c.evicting == None
    }

    /** updateCacheBlock(INVALID, BACK_INVAL), with `next` the next-level controller. */
    method UpdateCacheBlock(next: CacheCntlr)
      requires Tree() && Idle() && next !in repr
      requires DirtyClosed(Snapshot()) && (Dirty(line) ==> next.evicting.Some? || Dirty(next.line))
      modifies repr, next
      ensures Snapshot() == Update(old(Snapshot())).cache && Idle()
      ensures var up := Update(old(Snapshot())).up;
        if up == None then next.line == old(next.line) && next.evicting == old(next.evicting)
        else if old(next.evicting).Some? then next.evicting == up && next.line == old(next.line)
        else next.evicting == old(next.evicting) && next.line == Written(old(next.line), up.value)
      decreases height
    {
      ghost var snap, line0 := Snaps(), line;
      assert old(Snapshot()) == Cache(line0, snap);
      UpdateLevel(snap);
      LevelKeepsState(snap, line0);
      if line.Some? {
        if line.value.state == Modified {
          next.WriteCacheBlock(line.value.data);
          line := Some(line.value.(state := Shared));
        }
        InvalidateCacheBlock();
      }
      assert Snaps() == UpdateAll(snap, line0).caches;
    }

    /** One iteration of a loop over the previous level. */
    method UpdatePrev(i: nat)
      requires Tree() && IdleAbove() && i < |prev|
      requires DirtyClosed(Snaps()[i])
      requires Dirty(Snaps()[i].line) ==> evicting.Some? || Dirty(line)
      modifies repr
      ensures IdleAbove() && Snaps() == old(Snaps())[i := Update(old(Snaps())[i]).cache]
      ensures var up := Update(old(Snaps())[i]).up;
        if up == None then line == old(line) && evicting == old(evicting)
        else if old(evicting).Some? then evicting == up && line == old(line)
        else evicting == old(evicting) && line == Written(old(line), up.value)
      decreases height, 0
    {
      prev[i].UpdateCacheBlock(this);
    }

    /** The loop over the previous level: each cache is updated and may write to this one. */
    method UpdateLevel(ghost snap: seq<Cache>)
      requires Tree() && Idle() && snap == Snaps()
      requires forall i | 0 <= i < |snap| :: DirtyClosed(snap[i]) && (Dirty(snap[i].line) ==> Dirty(line))
      modifies repr
      ensures line == UpdateAll(snap, old(line)).line && Idle()
      ensures Snaps() == UpdateAll(snap, old(line)).caches
      decreases height, 1
    {
      assert this in repr;
      hide DirtyClosed, Tree, Snapshot, UpdateAll, Update;
      ghost var line0 := line;
      LevelStart(snap, line0);
      for i := 0 to |prev|
        invariant IdleAbove() && evicting == None && line == UpdateAll(snap[..i], line0).line
        invariant Snaps() == UpdateAll(snap[..i], line0).caches + snap[i..]
      {
        LevelKeepsState(snap[..i], line0);
        LevelStep(snap, i, line0);
        ghost var before := UpdateAll(snap[..i], line0).caches;
        assert Snaps()[i] == snap[i];
        UpdatePrev(i);
        ReplaceNext(before, snap, i, Update(snap[i]).cache);
      }
      assert snap[..|prev|] == snap;
    }

    /** The eviction part of insertCacheBlock: `taken` is the copy taken out of this cache. */
    method Evict(taken: Copy) returns (buf: Block)
      requires Tree() && Idle() && line == None
      requires DirtyClosed(Cache(Some(taken), Snaps()))
      modifies repr
      ensures Idle() && line == None
      ensures (Snaps(), buf, true) == EvictAll(old(Snaps()), taken.data)
    {
      ghost var snap := Snaps();
      evicting := Some(taken.data);
      assert Snaps() == snap;
      EvictLoop(snap, taken.data);
      ghost var after := Snaps();
      buf := evicting.value;
      evicting := None;
      assert Snaps() == after;
    }

    method EvictLoop(ghost snap: seq<Cache>, ghost data: Block)
      requires Tree() && IdleAbove() && line == None && evicting == Some(data) && snap == Snaps()
      requires forall i | 0 <= i < |snap| :: DirtyClosed(snap[i])
      modifies repr
      ensures IdleAbove() && line == None && evicting.Some?
      ensures (Snaps(), evicting.value, true) == EvictAll(snap, data)
    {
      hide DirtyClosed, Tree, Snapshot;
      for i := 0 to |prev|
        invariant IdleAbove() && line == None && evicting.Some?
        invariant EvictAll(snap[..i], data) == (Snaps()[..i], evicting.value, true)
        invariant Snaps()[i..] == snap[i..]
      {
        AssertionsHold(snap[i]);
        EvictStep(snap, i, data);
        assert Snaps()[i] == Snaps()[i..][0] == snap[i];
        ghost var before := Snaps();
        UpdatePrev(i);
        assert Snaps()[..i + 1] == before[..i] + [Update(snap[i]).cache];
        assert Snaps()[i + 1..] == before[i..][1..] == snap[i..][1..];
      }
      assert snap[..|prev|] == snap;
      assert Snaps()[..|prev|] == Snaps();
    }
  }

  lemma LevelStart(snap: seq<Cache>, line: Option<Copy>)
    ensures UpdateAll(snap[..0], line) == BackInvalidation.Level([], line, true)
  {
  }

  lemma ReplaceNext(before: seq<Cache>, snap: seq<Cache>, i: nat, c: Cache)
    requires i < |snap| && |before| == i
    ensures (before + snap[i..])[i := c] == before + [c] + snap[i + 1..]
  {
  }

  lemma LevelStep(cs: seq<Cache>, i: nat, line: Option<Copy>)
    requires i < |cs|
    ensures var l, u, r := UpdateAll(cs[..i], line), Update(cs[i]), UpdateAll(cs[..i + 1], line);
      && r.caches == l.caches + [u.cache]
      && r.line == if u.up.Some? then Written(l.line, u.up.value) else l.line
  {
    assert cs[..i + 1][..i] == cs[..i];
  }

  lemma EvictStep(cs: seq<Cache>, i: nat, buf: Block)
    requires i < |cs|
    ensures var l, u, r := EvictAll(cs[..i], buf), Update(cs[i]), EvictAll(cs[..i + 1], buf);
      && r.0 == l.0 + [u.cache] && r.1 == (if u.up.Some? then u.up.value else l.1) && r.2 == (l.2 && u.ok)
  {
    assert cs[..i + 1][..i] == cs[..i];
  }

  ghost function MaxHeight(cs: seq<CacheCntlr>): nat {
    if cs == [] then 0
    else var m := MaxHeight(cs[1..]); if cs[0].height > m then cs[0].height else m
  }

  lemma {:induction false} HeightsBelow(cs: seq<CacheCntlr>)
    ensures forall i | 0 <= i < |cs| :: cs[i].height <= MaxHeight(cs)
  {
    if cs != [] {
      HeightsBelow(cs[1..]);
      assert forall i | 1 <= i < |cs| :: cs[i] == cs[1..][i - 1];
    }
  }
}
