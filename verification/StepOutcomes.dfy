/** Exactly what an update step comes to, told by heights: how far back a search goes, how many
    blocks are attached at a time, when the sync jumps forward, and what is pruned. */
module StepOutcomes {
  import opened BlockTree
  import opened ChainTable
  import opened Reorg
  import opened Notify
  import opened SyncSpec
  import opened SyncSafety
  import opened SyncRuns

  /** The block of chain c at height h can be attached. */
  ghost predicate FitsAt(t: Table, c: seq<Block>, h: nat) {
    h < |c| && (c[h].hash in t || c[h].parent in t)
  }

  /** How many blocks a step asks for. */
  ghost predicate Window(s: State, w: nat) { w == if s.numBlocks < 3 then 3 else s.numBlocks }

  /** The next window: twice as large, up to the block range. */
  ghost predicate Grows(cfg: Config, s: State, n: nat) {
    n == if 2 * s.numBlocks < cfg.range then 2 * s.numBlocks else cfg.range
  }

  /** A state of the sync task, and the snapshots that answer its next step; the range is from
      a chain that contains main[L]. */
  ghost predicate Ready(u: Tree, cfg: Config, origin: Option<Hash>, s: State, lo: nat, tip: Hash,
                        c0: seq<Block>, c1: seq<Block>, c2: Reply)
  {
    && SyncInv(u, cfg, origin, s) && Placed(u, origin, s, lo, tip)
    && IsChain(u, c0) && IsChain(u, c1) && Contains(u, c1, lo, tip) && Authenticated(u, c2)
  }

  // ----- Going back

  /** A range that does not fit changes nothing in the chainstate; the next range starts one
      window lower, or at height L. */
  lemma FailedOutcome(u: Tree, cfg: Config, origin: Option<Hash>, s: State, lo: nat, tip: Hash,
                      c0: seq<Block>, c1: seq<Block>, c2: Reply, f: Faults, w: nat, n: nat)
    requires Ready(u, cfg, origin, s, lo, tip, c0, c1, c2) && Window(s, w) && Grows(cfg, s, n)
    requires StartHeight(u, s, tip) >= 0 && !FitsAt(s.t, c1, StartHeight(u, s, tip))
    ensures var start := StartHeight(u, s, tip);
      && start > lo
      && UpdateStep(u, cfg, s, Some(c0), Some(c1), c2, f) ==
           Done(s.(numBlocks := n, next := if start - w > lo then start - w else lo), true)
  {
    hide UniqueSlots, Contiguous, Bottomed, MainIs, AttachBlocks, Advance, UpdateStep, Follows, LowestHeight, IsChain,
      SyncInv;
    assert Settings(u, cfg) && 1 <= s.numBlocks <= cfg.range by { InvSettings(u, cfg, origin, s); }
    Queries(u, s.t, lo, tip);
    StepValue(u, cfg, s, lo, tip, c0, c1, c2, f);
    var start := StartHeight(u, s, tip);
    var bs := Range(c1, start, w);
    RangeSlice(u, c1, start, w);
    if bs == [] {
      NothingFits(u, s.t);
    } else {
      AttachBlocksGood(u, s.t, lo, tip, c1, start, bs);
    }
    TipStored(u, s.t, lo, tip);
    LowFits(u, s.t, lo, tip, c1);
  }

  lemma InvSettings(u: Tree, cfg: Config, origin: Option<Hash>, s: State)
    requires SyncInv(u, cfg, origin, s)
    ensures Settings(u, cfg) && 1 <= s.numBlocks <= cfg.range
  {
  }

  lemma LowFits(u: Tree, t: Table, lo: nat, tip: Hash, c: seq<Block>)
    requires Sound(u, t) && MainIs(u, t, lo, tip) && Contains(u, c, lo, tip)
    ensures FitsAt(t, c, lo)
  {
    TipStored(u, t, lo, tip);
  }

  /** If a block of a chain with main[L] fits, all lower ones do. */
  lemma {:induction false} FitsBelow(u: Tree, t: Table, lo: nat, tip: Hash, c: seq<Block>, h: nat, k: nat)
    requires Steady(u, t, lo, tip) && IsChain(u, c) && Contains(u, c, lo, tip) && lo <= k <= h && FitsAt(t, c, h)
    ensures FitsAt(t, c, k)
    decreases h
  {
    hide UniqueSlots, Contiguous, Bottomed, MainIs;
    if k < h {
      OnChainDescends(u, c, lo, tip, h);
      ParentStored(u, t, lo, tip, c[h]);
      assert c[h].parent == c[h - 1].hash;
      FitsBelow(u, t, lo, tip, c, h - 1, k);
    }
  }

  /** So a search never goes further than one window below the highest block that fits. */
  lemma SearchLands(u: Tree, cfg: Config, origin: Option<Hash>, s: State, lo: nat, tip: Hash,
                    c0: seq<Block>, c1: seq<Block>, c2: Reply, f: Faults, w: nat, h: nat)
    requires Ready(u, cfg, origin, s, lo, tip, c0, c1, c2) && Window(s, w)
    requires StartHeight(u, s, tip) >= 0 && !FitsAt(s.t, c1, StartHeight(u, s, tip))
    requires lo <= h && FitsAt(s.t, c1, h)
    ensures var r := UpdateStep(u, cfg, s, Some(c0), Some(c1), c2, f);
      r.Done? && r.more && h < StartHeight(u, s, tip) && h - w < r.s.next < StartHeight(u, s, tip)
  {
    hide UniqueSlots, Contiguous, Bottomed, MainIs, UpdateStep, Follows, IsChain;
    var n := if 2 * s.numBlocks < cfg.range then 2 * s.numBlocks else cfg.range;
    FailedOutcome(u, cfg, origin, s, lo, tip, c0, c1, c2, f, w, n);
    if StartHeight(u, s, tip) <= h { FitsBelow(u, s.t, lo, tip, c1, h, StartHeight(u, s, tip)); }
  }

  // ----- Going forward

  /** The state after the blocks up to height k of a chain became the main chain. */
  ghost predicate Reaches(u: Tree, cfg: Config, s: State, tip: Hash, lo: nat, c: seq<Block>, k: nat, pruned: bool,
                          s': State)
  {
    && k < |c| && TipOf(s'.t) == Some(c[k].hash) && s'.next == -1
    && LowestHeight(s'.t) ==
         if pruned && tip != c[k].hash && k > cfg.depth + 1 && k - cfg.depth > lo then k - cfg.depth else lo
  }

  lemma ReachesFrom(u: Tree, cfg: Config, s: State, tip: Hash, lo: nat, c: seq<Block>, k: nat, pruned: bool, s': State,
                    lo': nat)
    requires IsChain(u, c) && k < |c| && Steady(u, s'.t, lo', c[k].hash) && s'.next == -1
    requires lo' == if !pruned || tip == c[k].hash then lo else LoAfter(cfg, lo, k)
    ensures Reaches(u, cfg, s, tip, lo, c, k, pruned, s')
  {
    hide UniqueSlots, Contiguous, Bottomed, MainIs;
    Queries(u, s'.t, lo', c[k].hash);
  }

  /** A range that fits: its blocks become the end of the main chain, and all that is too deep
      below them is pruned.  A range that comes back short ends the search for more, with the
      window back at one.  This is the case in which the callback throws, or no jump follows. */
  lemma ShortOutcome(u: Tree, cfg: Config, origin: Option<Hash>, s: State, lo: nat, tip: Hash,
                     c0: seq<Block>, c1: seq<Block>, c2: Reply, f: Faults, w: nat)
    requires Ready(u, cfg, origin, s, lo, tip, c0, c1, c2) && Window(s, w)
    requires StartHeight(u, s, tip) >= 0 && FitsAt(s.t, c1, StartHeight(u, s, tip))
    requires StartHeight(u, s, tip) + w > |c1| || (f.attach && c1[StartHeight(u, s, tip) + w - 1].hash != tip)
    ensures var start := StartHeight(u, s, tip);
      var r := UpdateStep(u, cfg, s, Some(c0), Some(c1), c2, f);
      var k := if start + w > |c1| then |c1| - 1 else start + w - 1;
      if f.attach && c1[k].hash != tip then
        r.Threw? && Reaches(u, cfg, s, tip, lo, c1, k, false, r.s) && r.s.numBlocks == s.numBlocks
      else
        r.Done? && !r.more && Reaches(u, cfg, s, tip, lo, c1, k, true, r.s) && r.s.numBlocks == 1
  {
    hide UniqueSlots, Contiguous, Bottomed, Grounded, MainIs, AttachBlocks, Extend, UpdateStep, Follows, SyncInv,
      MainIsRange, TipMessages, LoAfter, Reaches, IsChain;
    var start := StartHeight(u, s, tip);
    var bs, lo' := FitsValue(u, cfg, origin, s, lo, tip, c0, c1, c2, f, w);
    var e := Extend(u, cfg, s, AttachBlocks(u, s.t, bs).t, tip, bs, w, c1, f.attach);
    ReachesFrom(u, cfg, s, tip, lo, c1, start + |bs| - 1, !f.attach, e.s, lo');
    FaultlessSame(u, cfg, s, tip, lo, c1, start + |bs| - 1, e.s);
  }

  /** If the tip stays, it makes no difference whether the callback would have thrown. */
  lemma FaultlessSame(u: Tree, cfg: Config, s: State, tip: Hash, lo: nat, c: seq<Block>, k: nat, s': State)
    ensures k < |c| && tip == c[k].hash ==>
      (Reaches(u, cfg, s, tip, lo, c, k, false, s') <==> Reaches(u, cfg, s, tip, lo, c, k, true, s'))
  {
  }

  /** What a range that fits leads to, up to the decision to continue. */
  lemma FitsValue(u: Tree, cfg: Config, origin: Option<Hash>, s: State, lo: nat, tip: Hash,
                  c0: seq<Block>, c1: seq<Block>, c2: Reply, f: Faults, w: nat) returns (bs: seq<Block>, lo': nat)
    requires Ready(u, cfg, origin, s, lo, tip, c0, c1, c2) && Window(s, w)
    requires StartHeight(u, s, tip) >= 0 && FitsAt(s.t, c1, StartHeight(u, s, tip))
    ensures var start := StartHeight(u, s, tip);
      && Slice(u, c1, start, bs) && |bs| == (if start + w > |c1| then |c1| - start else w)
      && AttachBlocks(u, s.t, bs).AttachedBlocks? && AttachBlocks(u, s.t, bs).oldTip == tip
      && (var e := Extend(u, cfg, s, AttachBlocks(u, s.t, bs).t, tip, bs, w, c1, f.attach);
          && UpdateStep(u, cfg, s, Some(c0), Some(c1), c2, f) ==
               (if e.Done? && e.more then
                  Continue(u, cfg, e.s, start + |bs| - 1, GenesisHeight(cfg, c0), c2, f.jump)
                else e)
          && !e.StepAborted? && (e.Threw? <==> f.attach && tip != c1[start + |bs| - 1].hash)
          && (e.Done? ==> (e.more <==> |bs| == w)) && e.s.next == -1
          && e.s.numBlocks == (if e.Done? && !e.more then 1 else s.numBlocks)
          && Steady(u, e.s.t, lo', c1[start + |bs| - 1].hash)
          && lo' == (if f.attach || tip == c1[start + |bs| - 1].hash then lo else LoAfter(cfg, lo, start + |bs| - 1)))
  {
    hide UniqueSlots, Contiguous, Bottomed, Grounded, MainIs, AttachBlocks, Extend, Continue, UpdateStep, Follows,
      SyncInv, MainIsRange, TipMessages, LoAfter;
    assert Settings(u, cfg) && 1 <= s.numBlocks <= cfg.range by { InvSettings(u, cfg, origin, s); }
    TipStored(u, s.t, lo, tip);
    StepValue(u, cfg, s, lo, tip, c0, c1, c2, f);
    var start := StartHeight(u, s, tip);
    bs := Range(c1, start, w);
    RangeSlice(u, c1, start, w);
    AttachBlocksGood(u, s.t, lo, tip, c1, start, bs);
    lo' := ExtendGood(u, cfg, s, lo, tip, c1, start, bs, w, f.attach);
    assert Last(bs) == c1[start + |bs| - 1] && Fits(u, Last(bs));
  }

  /** A full range, and a callback that does not throw.  If its end is more than the maximum
      reorg depth behind the base tip, the sync jumps to the block at that depth, as long as
      there is one; otherwise the next window is twice as large. */
  lemma FullOutcome(u: Tree, cfg: Config, origin: Option<Hash>, s: State, lo: nat, tip: Hash,
                    c0: seq<Block>, c1: seq<Block>, c2: Reply, f: Faults, w: nat, n: nat)
    requires Ready(u, cfg, origin, s, lo, tip, c0, c1, c2) && Window(s, w) && Grows(cfg, s, n)
    requires StartHeight(u, s, tip) >= 0 && FitsAt(s.t, c1, StartHeight(u, s, tip))
    requires StartHeight(u, s, tip) + w <= |c1|
    requires !f.attach || c1[StartHeight(u, s, tip) + w - 1].hash == tip
    ensures var k := StartHeight(u, s, tip) + w - 1;
      var r := UpdateStep(u, cfg, s, Some(c0), Some(c1), c2, f);
      var g := |c0| - 1 - cfg.depth;
      if k < g && c2.None? then
        r.Threw? && Reaches(u, cfg, s, tip, lo, c1, k, true, r.s) && r.s.numBlocks == s.numBlocks
      else if k < g < |c2.value| then
        && (if f.jump then r.Threw? else r.Done? && r.more) && r.s.numBlocks == s.numBlocks && r.s.next == -1
        && TipOf(r.s.t) == Some(c2.value[g].hash) && LowestHeight(r.s.t) == g
      else
        r.Done? && r.more && Reaches(u, cfg, s, tip, lo, c1, k, true, r.s) && r.s.numBlocks == n
  {
    hide UniqueSlots, Contiguous, Bottomed, Grounded, MainIs, AttachBlocks, Extend, UpdateStep, Follows, SyncInv,
      MainIsRange, TipMessages, LoAfter, Reaches, ImportNewTip, TipOf, LowestHeight;
    assert Settings(u, cfg) && 1 <= s.numBlocks <= cfg.range by { InvSettings(u, cfg, origin, s); }
    var k := StartHeight(u, s, tip) + w - 1;
    var bs, lo' := FitsValue(u, cfg, origin, s, lo, tip, c0, c1, c2, f, w);
    var e := Extend(u, cfg, s, AttachBlocks(u, s.t, bs).t, tip, bs, w, c1, f.attach);
    ReachesFrom(u, cfg, s, tip, lo, c1, k, !f.attach, e.s, lo');
    FaultlessSame(u, cfg, s, tip, lo, c1, k, e.s);
    OnlyNumBlocks(u, cfg, s, tip, lo, c1, k, e.s, n);
    JumpOutcome(u, cfg, e.s, lo', c1, k, GenesisHeight(cfg, c0), c2, f.jump);
  }

  lemma OnlyNumBlocks(u: Tree, cfg: Config, s: State, tip: Hash, lo: nat, c: seq<Block>, k: nat, s': State, n: nat)
    requires Reaches(u, cfg, s, tip, lo, c, k, true, s')
    ensures Reaches(u, cfg, s, tip, lo, c, k, true, s'.(numBlocks := n))
  {
  }

  lemma JumpOutcome(u: Tree, cfg: Config, s: State, lo: nat, c: seq<Block>, k: nat, g: nat, c2: Reply, throws: bool)
    requires IsChain(u, c) && k < |c| && Steady(u, s.t, lo, c[k].hash) && s.next == -1 && Authenticated(u, c2)
    ensures k < g && c2.None? ==> ImportNewTip(u, cfg, s, g, c2, throws) == Threw(s)
    ensures k < g && c2.Some? && g >= |c2.value| ==> ImportNewTip(u, cfg, s, g, c2, throws) == Done(s, false)
    ensures k < g && c2.Some? && g < |c2.value| ==>
      var r := ImportNewTip(u, cfg, s, g, c2, throws);
      && (if throws then r.Threw? else r.Done? && r.more) && r.s.numBlocks == s.numBlocks && r.s.next == -1
      && TipOf(r.s.t) == Some(c2.value[g].hash) && LowestHeight(r.s.t) == g
  {
    hide UniqueSlots, Contiguous, Bottomed, Grounded, MainIs, ImportNewTip, TipOf, LowestHeight;
    TipStored(u, s.t, lo, c[k].hash);
    assert Fits(u, c[k]);
    if k < g {
      if c2.None? {
        ImportThrows(u, cfg, s, g, throws);
      } else {
        ImportStep(u, cfg, s, lo, c[k].hash, lo, g, c2.value, throws);
        if g < |c2.value| {
          assert Fits(u, c2.value[g]);
          Queries(u, ImportNewTip(u, cfg, s, g, c2, throws).s.t, g, c2.value[g].hash);
        }
      }
    }
  }

  /** The first step imports the block at the maximum reorg depth below the base tip, or the
      genesis. */
  lemma FirstOutcome(u: Tree, cfg: Config, origin: Option<Hash>, s: State, c0: seq<Block>, c1: Reply, c2: seq<Block>,
                     f: Faults)
    requires SyncInv(u, cfg, origin, s) && s.t == map[]
    requires IsChain(u, c0) && Authenticated(u, c1) && IsChain(u, c2)
    ensures var g := if |c0| - 1 > cfg.depth then |c0| - 1 - cfg.depth else 0;
      var r := UpdateStep(u, cfg, s, Some(c0), c1, Some(c2), f);
      if g >= |c2| then r == Done(s, false)
      else
        && (if f.jump then r.Threw? else r.Done? && r.more) && r.s.next == -1 && r.s.numBlocks == s.numBlocks
        && TipOf(r.s.t) == Some(c2[g].hash) && LowestHeight(r.s.t) == g
        && r.s.sent == s.sent + [Attach(c2[g])]
  {
    hide UniqueSlots, Contiguous, Bottomed, Grounded, ImportNewTip, Follows, TipOf;
    assert TipHeight(map[]) == -1;
    var g := GenesisHeight(cfg, c0);
    FirstImportStep(u, cfg, s, g, c2, f.jump);
    if g < |c2| {
      assert Fits(u, c2[g]);
      Queries(u, ImportNewTip(u, cfg, s, g, Some(c2), f.jump).s.t, g, c2[g].hash);
    }
  }
}
