/** Recursive back-invalidation over a tree of coherent write-back caches (cache_cntlr.cc). */
module BackInvalidation {
  import opened Options

  /** The states of a line that is present; an absent line is INVALID. */
  datatype CState = Modified | Owned | Exclusive | Shared | SharedUpgrading

  type Block = seq<nat>

  datatype Copy = Copy(state: CState, data: Block)

  /** One line as held by a cache and by the caches closer to the cores. */
  datatype Cache = Cache(line: Option<Copy>, prev: seq<Cache>)

  predicate Dirty(line: Option<Copy>) { line.Some? && line.value.state == Modified }

  /** A cache after the update, what it wrote to the next level, and whether every assertion on the way held. */
  datatype Updated = Updated(cache: Cache, up: Option<Block>, ok: bool)

  /** The caches of one level after their updates, and the line of the cache they write to. */
  datatype Level = Level(caches: seq<Cache>, line: Option<Copy>, ok: bool)

  /** writeCacheBlock into a cache: the line must be present and MODIFIED. */
  function Written(line: Option<Copy>, d: Block): Option<Copy> {
    if line.Some? then Some(line.value.(data := d)) else None
  }

  /** updateCacheBlock(INVALID): previous levels first, then write back and invalidate. */
  function Update(c: Cache): Updated
    decreases c, 0
  {
    var l := UpdateAll(c.prev, c.line);
    Updated(Cache(None, l.caches), if Dirty(l.line) then Some(l.line.value.data) else None, l.ok)
  }

  function UpdateAll(cs: seq<Cache>, line: Option<Copy>): (r: Level)
    ensures |r.caches| == |cs|
    decreases cs, 1
  {
    if cs == [] then Level([], line, true)
    else
      var n := |cs| - 1;
      var l := UpdateAll(cs[..n], line);
      var u := Update(cs[n]);
      Level(
        l.caches + [u.cache],
        if u.up.Some? then Written(l.line, u.up.value) else l.line,
        l.ok && u.ok && (u.up.Some? ==> Dirty(l.line)))
  }

  /** The eviction part of insertCacheBlock: writes go to the evict buffer, unconditionally. */
  function EvictAll(cs: seq<Cache>, buf: Block): (seq<Cache>, Block, bool)
  {
    if cs == [] then ([], buf, true)
    else
      var n := |cs| - 1;
      var (caches, b, ok) := EvictAll(cs[..n], buf);
      var u := Update(cs[n]);
      (caches + [u.cache], if u.up.Some? then u.up.value else b, ok && u.ok)
  }

  // ----- Nothing is left -----

  ghost predicate Empty(c: Cache) {
    c.line == None && forall i | 0 <= i < |c.prev| :: Empty(c.prev[i])
  }

  lemma {:induction false} UpdateEmpties(c: Cache)
    ensures Empty(Update(c).cache)
    decreases c, 0
  {
    UpdateAllEmpties(c.prev, c.line);
  }

  lemma {:induction false} UpdateAllEmpties(cs: seq<Cache>, line: Option<Copy>)
    ensures forall i | 0 <= i < |cs| :: Empty(UpdateAll(cs, line).caches[i])
    decreases cs, 1
  {
    if cs != [] {
      UpdateAllEmpties(cs[..|cs| - 1], line);
      UpdateEmpties(cs[|cs| - 1]);
    }
  }

  // ----- When the assertions hold -----

  /** Every MODIFIED copy lies under a MODIFIED copy. */
  ghost predicate DirtyClosed(c: Cache) {
    forall i | 0 <= i < |c.prev| :: DirtyClosed(c.prev[i]) && (Dirty(c.prev[i].line) ==> Dirty(c.line))
  }

  /** Writes change the data of a line, never its state. */
  lemma {:induction false} LevelKeepsState(cs: seq<Cache>, line: Option<Copy>)
    ensures var r := UpdateAll(cs, line).line;
            r.Some? == line.Some? && (r.Some? ==> r.value.state == line.value.state)
  {
    if cs != [] { LevelKeepsState(cs[..|cs| - 1], line); }
  }

  /** A cache writes back exactly when its own copy is MODIFIED. */
  lemma WritesUp(c: Cache)
    ensures Update(c).up.Some? <==> Dirty(c.line)
  {
    LevelKeepsState(c.prev, c.line);
  }

  /** The assertions of writeCacheBlock hold in the subtree exactly when its MODIFIED copies are closed upwards. */
  lemma {:induction false} AssertionsHold(c: Cache)
    ensures Update(c).ok <==> DirtyClosed(c)
    decreases c, 0
  {
    LevelAssertionsHold(c.prev, c.line);
  }

  lemma {:induction false} LevelAssertionsHold(cs: seq<Cache>, line: Option<Copy>)
    ensures UpdateAll(cs, line).ok
       <==> forall i | 0 <= i < |cs| :: DirtyClosed(cs[i]) && (Dirty(cs[i].line) ==> Dirty(line))
    decreases cs, 1
  {
    if cs != [] {
      var n := |cs| - 1;
      LevelAssertionsHold(cs[..n], line);
      LevelKeepsState(cs[..n], line);
      AssertionsHold(cs[n]);
      WritesUp(cs[n]);
      assert cs == cs[..n] + [cs[n]];
    }
  }

  // ----- Which data comes out -----

  ghost predicate SingleDirty(cs: seq<Cache>) {
    forall i, j | 0 <= i < |cs| && 0 <= j < |cs| && Dirty(cs[i].line) && Dirty(cs[j].line) :: i == j
  }

  /** At most one MODIFIED child per cache, in the whole tree. */
  ghost predicate OneDirtyChild(c: Cache) {
    SingleDirty(c.prev) && forall i | 0 <= i < |c.prev| :: OneDirtyChild(c.prev[i])
  }

  /** A chain of MODIFIED copies going down from `c`, by child index, that cannot be continued. */
  ghost predicate DirtyPath(c: Cache, path: seq<nat>) {
    if path == [] then forall i | 0 <= i < |c.prev| :: !Dirty(c.prev[i].line)
    else path[0] < |c.prev| && Dirty(c.prev[path[0]].line) && DirtyPath(c.prev[path[0]], path[1..])
  }

  /** Such a chain that takes the last MODIFIED child everywhere: the one whose write is not overwritten. */
  ghost predicate LastPath(c: Cache, path: seq<nat>) {
    if path == [] then NoneDirty(c.prev)
    else
      && path[0] < |c.prev| && Dirty(c.prev[path[0]].line) && NoneDirty(c.prev[path[0] + 1..])
      && LastPath(c.prev[path[0]], path[1..])
  }

  ghost predicate NoneDirty(cs: seq<Cache>) { forall i | 0 <= i < |cs| :: !Dirty(cs[i].line) }

  /** Every tree has such a chain. */
  lemma {:induction false} PathExists(c: Cache) returns (path: seq<nat>)
    ensures LastPath(c, path) && DirtyPath(c, path)
  {
    if NoneDirty(c.prev) {
      path := [];
    } else {
      var k := LastDirty(c.prev);
      var rest := PathExists(c.prev[k]);
      path := [k] + rest;
    }
  }

  lemma {:induction false} LastDirty(cs: seq<Cache>) returns (k: nat)
    requires !NoneDirty(cs)
    ensures k < |cs| && Dirty(cs[k].line) && NoneDirty(cs[k + 1..])
  {
    var n := |cs| - 1;
    if Dirty(cs[n].line) {
      k := n;
    } else {
      k := LastDirty(cs[..n]);
      assert cs[k + 1..] == cs[..n][k + 1..] + [cs[n]];
    }
  }

  /** With at most one MODIFIED child everywhere, there is no other chain. */
  lemma {:induction false} OnlyPathIsLast(c: Cache, path: seq<nat>)
    requires OneDirtyChild(c) && DirtyPath(c, path)
    ensures LastPath(c, path)
    decreases path
  {
    if path != [] { OnlyPathIsLast(c.prev[path[0]], path[1..]); }
  }

  function Follow(c: Cache, path: seq<nat>): Cache {
    if path == [] || path[0] >= |c.prev| then c else Follow(c.prev[path[0]], path[1..])
  }

  /** The line of a level ends with the data its last MODIFIED member wrote. */
  lemma {:induction false} LevelData(cs: seq<Cache>, line: Option<Copy>, k: nat)
    requires k < |cs| && Dirty(cs[k].line) && NoneDirty(cs[k + 1..])
    ensures Update(cs[k]).up.Some?
    ensures UpdateAll(cs, line).line == Written(line, Update(cs[k]).up.value)
  {
    var n := |cs| - 1;
    WritesUp(cs[k]);
    WritesUp(cs[n]);
    if k == n {
      LevelKeepsState(cs[..n], line);
    } else {
      assert cs[k + 1..][n - k - 1] == cs[n];
      assert cs[..n][k + 1..] == cs[k + 1..n] <= cs[k + 1..];
      LevelData(cs[..n], line, k);
    }
  }

  lemma {:induction false} LevelUnchanged(cs: seq<Cache>, line: Option<Copy>)
    requires forall i | 0 <= i < |cs| :: !Dirty(cs[i].line)
    ensures UpdateAll(cs, line).line == line
  {
    if cs != [] {
      LevelUnchanged(cs[..|cs| - 1], line);
      WritesUp(cs[|cs| - 1]);
    }
  }

  /** A MODIFIED cache passes on the data at the end of the last chain of MODIFIED copies below it. */
  lemma {:induction false} DeepestData(c: Cache, path: seq<nat>)
    requires Dirty(c.line) && LastPath(c, path)
    ensures var end := Follow(c, path);
            Dirty(end.line) && Update(c).up == Some(end.line.value.data)
    decreases path
  {
    if path == [] {
      LevelUnchanged(c.prev, c.line);
    } else {
      var k := path[0];
      DeepestData(c.prev[k], path[1..]);
      LevelData(c.prev, c.line, k);
    }
  }

  lemma {:induction false} EvictEmpties(cs: seq<Cache>, buf: Block)
    ensures var (caches, _, _) := EvictAll(cs, buf);
            |caches| == |cs| && forall i | 0 <= i < |cs| :: Empty(caches[i])
  {
    if cs != [] {
      EvictEmpties(cs[..|cs| - 1], buf);
      UpdateEmpties(cs[|cs| - 1]);
    }
  }

  /** An eviction whose old copy was MODIFIED is an update of that copy, without the last write-back. */
  lemma {:induction false} EvictIsUpdate(cs: seq<Cache>, buf: Block, state: CState)
    ensures var (caches, b, ok) := EvictAll(cs, buf);
            var l := UpdateAll(cs, Some(Copy(state, buf)));
            && caches == l.caches && l.line == Some(Copy(state, b))
            && (state == Modified ==> ok == l.ok)
  {
    if cs != [] {
      EvictIsUpdate(cs[..|cs| - 1], buf, state);
    }
  }

  /**
   Evicting a line leaves no copy in any previous level, and the evict buffer holds the data at the end of the last
   chain of MODIFIED copies, which is the only chain when no cache has two MODIFIED children.
   */
  lemma EvictionKeepsData(root: Cache, path: seq<nat>)
    requires root.line.Some? && DirtyClosed(root) && LastPath(root, path)
    ensures var (caches, b, ok) := EvictAll(root.prev, root.line.value.data);
            && ok && |caches| == |root.prev| && (forall i | 0 <= i < |caches| :: Empty(caches[i]))
            && Follow(root, path).line.Some? && b == Follow(root, path).line.value.data
            && (Dirty(Follow(root, path).line) || path == [])
  {
    var buf, state := root.line.value.data, root.line.value.state;
    EvictEmpties(root.prev, buf);
    EvictIsUpdate(root.prev, buf, state);
    EvictIsUpdate(root.prev, buf, Modified);
    LevelAssertionsHold(root.prev, Some(Copy(Modified, buf)));
    if path == [] {
      LevelUnchanged(root.prev, root.line);
    } else {
      DeepestData(root.prev[path[0]], path[1..]);
      LevelData(root.prev, root.line, path[0]);
    }
  }

  /** Dirty data never gets lost: if the evicted copy was not MODIFIED, nothing above it was. */
  lemma CleanEvictionLosesNothing(root: Cache, path: seq<nat>)
    requires root.line.Some? && !Dirty(root.line) && DirtyClosed(root) && DirtyPath(root, path)
    ensures path == [] && EvictAll(root.prev, root.line.value.data).1 == root.line.value.data
  {
    EvictIsUpdate(root.prev, root.line.value.data, root.line.value.state);
    LevelUnchanged(root.prev, root.line);
  }
}
