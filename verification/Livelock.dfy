/** A run of the sync task, for every block range, at the end of which some game process can
    not catch up any more: the base chain switches to a short branch and back, and has grown
    by so much that the sync task jumps forward over blocks that it has on a side branch. */
module Livelock {
  import opened BlockTree
  import opened ChainTable
  import opened Reorg
  import opened Notify
  import opened SyncSpec
  import opened SyncSafety
  import opened SyncRuns
  import opened Finality
  import opened Convergence
  import opened CatchUp

  // ----- Steps that do not jump

  /** What a step without an import does to the table: blocks of c are attached on top of
      main[L], and the main chain may be pruned. */
  ghost predicate QuietTo(u: Tree, cfg: Config, t: Table, lo: nat, c: seq<Block>, k: nat, t1: Table, t': Table) {
    && k < |c| && t.Keys <= t1.Keys && Steady(u, t1, lo, c[k].hash)
    && (forall x | x in t1 && x !in t :: t1[x].blk.height < |c|)
    && (t' == t1 || t' == Pruned(cfg, t1, k))
  }

  ghost predicate Quiet(u: Tree, cfg: Config, t: Table, lo: nat, c: seq<Block>, t': Table) {
    t' == t || exists k, t1 :: QuietTo(u, cfg, t, lo, c, k, t1, t')
  }

  lemma SliceBelow(u: Tree, c: seq<Block>, start: nat, bs: seq<Block>)
    requires Slice(u, c, start, bs)
    ensures forall b | b in bs :: Fits(u, b) && b.height < |c|
  {
    forall b | b in bs ensures b.height < |c| {
      var i :| 0 <= i < |bs| && bs[i] == b;
      assert b == c[start + i];
    }
  }

  lemma AttachedBelow(u: Tree, t: Table, t1: Table, c: seq<Block>, start: nat, bs: seq<Block>)
    requires Sound(u, t1) && Slice(u, c, start, bs) && Grown(t, t1, bs)
    ensures forall x | x in t1 && x !in t :: t1[x].blk.height < |c|
  {
    hide Slice;
    SliceBelow(u, c, start, bs);
    forall x | x in t1 && x !in t ensures t1[x].blk.height < |c| {
      assert Fits(u, t1[x].blk);
    }
  }

  lemma ExtendTable(u: Tree, cfg: Config, s: State, t: Table, lo: nat, tip: Hash, bs: seq<Block>, num: nat,
                    c: seq<Block>)
    requires bs != [] && Sound(u, s.t) && Steady(u, t, lo, Last(bs).hash) && Fits(u, Last(bs))
    ensures var e := Extend(u, cfg, s, t, tip, bs, num, c);
      e.Done? ==> e.s.t == t || e.s.t == Pruned(cfg, t, Last(bs).height)
  {
    hide UniqueSlots, Contiguous, MainIs, Bottomed, PushZmqBlocks, Pruned, AttachList;
    Queries(u, t, lo, Last(bs).hash);
  }

  /** An attempt that fits. */
  lemma QuietAdvance(u: Tree, cfg: Config, s: State, lo: nat, tip: Hash, c: seq<Block>, start: nat, bs: seq<Block>,
                     num: nat)
    requires Steady(u, s.t, lo, tip) && Slice(u, c, start, bs) && Contains(u, c, lo, tip) && lo <= start
    requires GenesisHeight(cfg, c) <= lo && AttachBlocks(u, s.t, bs).AttachedBlocks?
    ensures var a := AttachBlocks(u, s.t, bs);
      var r := Advance(u, cfg, s, a.t, a.oldTip, bs, num, c, GenesisHeight(cfg, c), Some(c));
      r.Done? ==> Quiet(u, cfg, s.t, lo, c, r.s.t)
  {
    hide UniqueSlots, Contiguous, Grounded, Bottomed, MainIs, AttachBlocks, Extend, Grown;
    AttachBlocksGood(u, s.t, lo, tip, c, start, bs);
    AttachBlocksAny(u, s.t, lo, tip, c, start, bs);
    var a := AttachBlocks(u, s.t, bs);
    AttachedBelow(u, s.t, a.t, c, start, bs);
    ExtendTable(u, cfg, s, a.t, lo, a.oldTip, bs, num, c);
    var e := Extend(u, cfg, s, a.t, a.oldTip, bs, num, c);
    if e.Done? { assert QuietTo(u, cfg, s.t, lo, c, start + |bs| - 1, a.t, e.s.t); }
  }

  /** A step against a chain of which no block is to be imported. */
  lemma {:induction false} QuietStep(u: Tree, cfg: Config, origin: Option<Hash>, s: State, lo: nat, tip: Hash,
                                     c: seq<Block>)
    requires SyncInv(u, cfg, origin, s) && Placed(u, origin, s, lo, tip) && IsChain(u, c) && Contains(u, c, lo, tip)
    requires GenesisHeight(cfg, c) <= lo
    ensures var r := UpdateStep(u, cfg, s, Some(c), Some(c), Some(c)); r.Done? ==> Quiet(u, cfg, s.t, lo, c, r.s.t)
  {
    hide UniqueSlots, Contiguous, Grounded, Bottomed, MainIs, AttachBlocks, SearchBack, Advance, Follows, Range,
      UpdateStep,
      QuietTo, SyncInv, Slice;
    TipStored(u, s.t, lo, tip);
    StepValue(u, cfg, s, lo, tip, c, c, Some(c));
    var start := StartHeight(u, s, tip);
    var num := Max(s.numBlocks, 3);
    var bs := Range(c, start, num);
    RangeSlice(u, c, start, num);
    SearchKeeps(cfg, s, start, num);
    if bs == [] {
      NothingFits(u, s.t);
    } else {
      AttachBlocksGood(u, s.t, lo, tip, c, start, bs);
      if AttachBlocks(u, s.t, bs).AttachedBlocks? { QuietAdvance(u, cfg, s, lo, tip, c, start, bs, num); }
    }
  }

  lemma SearchKeeps(cfg: Config, s: State, start: int, num: nat)
    ensures SearchBack(cfg, s, start, num).Done? ==> SearchBack(cfg, s, start, num).s.t == s.t
  {
  }

  // ----- Before anything is pruned

  /** The main chain still starts with the genesis, and nothing above height n was seen. */
  ghost predicate Early(u: Tree, t: Table, n: nat) {
    (t == map[] || exists tip :: Steady(u, t, 0, tip)) && forall x | x in t :: t[x].blk.height <= n
  }

  lemma EarlyStep(u: Tree, cfg: Config, origin: Option<Hash>, s: State, c: seq<Block>)
    requires SyncInv(u, cfg, origin, s) && OnChain(u, s.t, c) && IsChain(u, c) && Sound(u, s.t)
    requires Early(u, s.t, cfg.depth) && |c| - 1 <= cfg.depth
    ensures var r := UpdateStep(u, cfg, s, Some(c), Some(c), Some(c));
      r.Done? ==> Early(u, r.s.t, cfg.depth) && s.t.Keys <= r.s.t.Keys
  {
    hide UniqueSlots, Contiguous, Grounded, Bottomed, UpdateStep, Follows, PruneTable;
    if s.t == map[] {
      EmptyEarly(u, cfg, origin, s, c);
    } else {
      var lo, tip := OnChainPlaced(u, cfg, origin, s, c);
      var tip0 :| Steady(u, s.t, 0, tip0);
      MainUnique(u, s.t, lo, tip, 0, tip0);
      QuietStep(u, cfg, origin, s, lo, tip, c);
      var r := UpdateStep(u, cfg, s, Some(c), Some(c), Some(c));
      if r.Done? && r.s.t != s.t {
        var k: nat, t1: Table :| QuietTo(u, cfg, s.t, lo, c, k, t1, r.s.t);
        forall x | x in t1 ensures t1[x].blk.height <= cfg.depth {
          if x in s.t { assert Fits(u, s.t[x].blk) && Fits(u, t1[x].blk); }
        }
      }
    }
  }

  lemma EmptyEarly(u: Tree, cfg: Config, origin: Option<Hash>, s: State, c: seq<Block>)
    requires SyncInv(u, cfg, origin, s) && IsChain(u, c) && s.t == map[] && |c| - 1 <= cfg.depth
    ensures var r := UpdateStep(u, cfg, s, Some(c), Some(c), Some(c)); r.Done? ==> Early(u, r.s.t, cfg.depth)
  {
    hide SyncInv, Good, Steady, Pruned, PushZmqBlocks;
    EmptyNext(u, cfg, origin, s);
    assert WellFormed(u) by { InvWellFormed(u, cfg, origin, s); }
    assert TipHeight(map[]) == -1;
    var b := c[0];
    assert Fits(u, b) && Range(c, 0, 1) == [b];
    FirstImportGood(u, b);
    var t: Table := map[b.hash := Row(b, 0)];
    assert Steady(u, t, 0, b.hash) by { GoodSteady(u, t, 0, b.hash); }
    assert Pruned(cfg, t, TipHeight(t)) == t by { SinglePruned(u, cfg, t, b); }
  }

  lemma InvWellFormed(u: Tree, cfg: Config, origin: Option<Hash>, s: State)
    requires SyncInv(u, cfg, origin, s)
    ensures WellFormed(u)
  {
  }

  lemma GoodSteady(u: Tree, t: Table, lo: nat, tip: Hash)
    requires Good(u, t, lo, tip)
    ensures Steady(u, t, lo, tip) && Sound(u, t) && MainIs(u, t, lo, tip)
  {
  }

  lemma SinglePruned(u: Tree, cfg: Config, t: Table, b: Block)
    requires Steady(u, t, 0, b.hash) && Fits(u, b) && b.height == 0
    ensures Pruned(cfg, t, TipHeight(t)) == t
  {
    Queries(u, t, 0, b.hash);
  }

  lemma {:induction false} EarlyRun(u: Tree, cfg: Config, origin: Option<Hash>, s: State, c: seq<Block>)
    requires SyncInv(u, cfg, origin, s) && OnChain(u, s.t, c) && IsChain(u, c)
    requires Early(u, s.t, cfg.depth) && |c| - 1 <= cfg.depth
    ensures var t := RunToTip(u, cfg, origin, s, c).t; Early(u, t, cfg.depth) && s.t.Keys <= t.Keys
    decreases Phase(c, s), Distance(c, s)
  {
    hide SyncInv, OnChain, UpdateStep, Early, IsChain, GoodOrEmpty;
    StepProgress(u, cfg, origin, s, c);
    EarlyStep(u, cfg, origin, s, c);
    var r := UpdateStep(u, cfg, s, Some(c), Some(c), Some(c));
    if r.more { EarlyRun(u, cfg, origin, r.s, c); }
  }

  // ----- Strays stay

  /** Block x is stored on a side branch, below the main chain. */
  ghost predicate Left(u: Tree, t: Table, lo: nat, tip: Hash, x: Hash) {
    Steady(u, t, lo, tip) && OffMain(t, x) && t[x].blk.height < lo
  }

  lemma PrunedLeaves(u: Tree, cfg: Config, t: Table, lo: nat, tip: Hash, k: nat, x: Hash)
    requires Steady(u, t, lo, tip) && x in t && t[x].blk.height < lo && u[tip].height == k
    ensures OffMain(t, x) && OffMain(Pruned(cfg, t, k), x) && Pruned(cfg, t, k)[x] == t[x]
    ensures exists lo' | lo <= lo' :: Steady(u, Pruned(cfg, t, k), lo', tip)
  {
    assert OnMain(t, x) <==> Between(u, x, lo, tip);
    assert Fits(u, t[x].blk);
    hide UniqueSlots, Contiguous, Bottomed, MainIs, Grounded;
    PrunedGood(u, cfg, t, lo, tip);
  }

  lemma {:induction false} StrayRun(u: Tree, cfg: Config, origin: Option<Hash>, s: State, lo: nat, tip: Hash,
                                    c: seq<Block>, x: Hash)
    requires SyncInv(u, cfg, origin, s) && OnChain(u, s.t, c) && IsChain(u, c)
    requires Left(u, s.t, lo, tip, x) && GenesisHeight(cfg, c) <= lo
    ensures OffMain(RunToTip(u, cfg, origin, s, c).t, x)
    decreases Phase(c, s), Distance(c, s)
  {
    hide SyncInv, OnChain, UpdateStep, IsChain, GoodOrEmpty, Left, GenesisHeight;
    StepProgress(u, cfg, origin, s, c);
    var r := UpdateStep(u, cfg, s, Some(c), Some(c), Some(c));
    var lo', tip' := StrayStep(u, cfg, origin, s, lo, tip, c, x);
    if r.more { StrayRun(u, cfg, origin, r.s, lo', tip', c, x); }
    assert OffMain(r.s.t, x) by { LeftOff(u, r.s.t, lo', tip', x); }
  }

  lemma LeftOff(u: Tree, t: Table, lo: nat, tip: Hash, x: Hash)
    requires Left(u, t, lo, tip, x)
    ensures OffMain(t, x)
  {
  }

  lemma StrayStep(u: Tree, cfg: Config, origin: Option<Hash>, s: State, lo: nat, tip: Hash, c: seq<Block>, x: Hash)
    returns (lo': nat, tip': Hash)
    requires SyncInv(u, cfg, origin, s) && OnChain(u, s.t, c) && IsChain(u, c) && Sound(u, s.t)
    requires Left(u, s.t, lo, tip, x) && GenesisHeight(cfg, c) <= lo
    requires UpdateStep(u, cfg, s, Some(c), Some(c), Some(c)).Done?
    ensures lo <= lo' && Left(u, UpdateStep(u, cfg, s, Some(c), Some(c), Some(c)).s.t, lo', tip', x)
  {
    hide UniqueSlots, Contiguous, Grounded, Bottomed, UpdateStep, Follows, Pruned;
    var lo1, tip1 := OnChainPlaced(u, cfg, origin, s, c);
    MainUnique(u, s.t, lo, tip, lo1, tip1);
    QuietStep(u, cfg, origin, s, lo, tip, c);
    var t' := UpdateStep(u, cfg, s, Some(c), Some(c), Some(c)).s.t;
    if t' == s.t {
      lo', tip' := lo, tip;
    } else {
      var k: nat, t1: Table :| QuietTo(u, cfg, s.t, lo, c, k, t1, t');
      assert Fits(u, s.t[x].blk) && Fits(u, t1[x].blk) && Fits(u, c[k]);
      PrunedLeaves(u, cfg, t1, lo, c[k].hash, k, x);
      tip' := c[k].hash;
      if t' == t1 {
        lo' := lo;
      } else {
        lo' :| lo <= lo' && Steady(u, t', lo', tip');
      }
    }
  }

  // ----- The jump

  /** An import of an unknown block leaves the side branches where they are. */
  lemma JumpLeaves(u: Tree, cfg: Config, s: State, height: nat, c: seq<Block>, x: Hash)
    requires Sound(u, s.t) && IsChain(u, c) && height < |c| && c[height].hash !in s.t && OffMain(s.t, x)
    ensures var r := ImportNewTip(u, cfg, s, height, Some(c));
      r.Done? ==> OffMain(r.s.t, x) && r.s.t[x] == s.t[x]
  {
    hide PushZmqBlocks, TipHeight, LowestHeight;
    assert Fits(u, c[height]) && Range(c, height, 1) == [c[height]];
  }

  // ----- The blocks

  /** The blocks of the long chain have even numbers; the other branch has one block. */
  function NodeOf(id: nat): Node {
    if id == 0 then Node(NoHash, 0) else if id == 3 then Node(Hash(0), 1) else Node(Hash(Max(0, id - 2)), id / 2)
  }

  ghost function World(): Tree {
    imap h: Hash | h.Hash? && (h.id % 2 == 0 || h.id == 3) :: NodeOf(h.id)
  }

  function Long(i: nat): Block { Block(Hash(2 * i), if i == 0 then NoHash else Hash(2 * i - 2), i, Payload(0)) }

  const OTHER := Block(Hash(3), Hash(0), 1, Payload(0))

  function LongChain(n: nat): seq<Block> { seq(n + 1, i requires 0 <= i <= n => Long(i)) }

  const OTHER_CHAIN := [Long(0), OTHER]

  lemma WorldFacts(n: nat)
    ensures WellFormed(World()) && NoHash !in World()
    ensures IsChain(World(), LongChain(n)) && IsChain(World(), OTHER_CHAIN)
  {
    hide Rooted, World, IsChain;
    forall h | h in World() ensures Rooted(World(), h) {
      WorldRooted(h);
    }
    LongIsChain(n);
    OtherIsChain();
  }

  lemma WorldRooted(h: Hash)
    ensures NoHash !in World() && (h in World() ==> Rooted(World(), h))
  {
  }

  lemma LongFits(i: nat)
    ensures Fits(World(), Long(i)) && Long(i).height == i && (i > 0 ==> Long(i).parent == Long(i - 1).hash)
  {
  }

  lemma LongIsChain(n: nat)
    ensures IsChain(World(), LongChain(n))
  {
    hide World, Fits, Long;
    var c := LongChain(n);
    forall i | 0 <= i < |c| ensures Fits(World(), c[i]) && c[i].height == i {
      LongFits(i);
    }
    forall i, j | 0 <= i && j == i + 1 < |c| ensures c[j].parent == c[i].hash {
      LongFits(j);
    }
  }

  lemma OtherIsChain()
    ensures IsChain(World(), OTHER_CHAIN)
  {
    LongFits(0);
  }

  // ----- The run

  function Settings3(range: nat): Config { Config(range + 3, range, true) }

  /** All that is known once the first two chains were followed. */
  ghost predicate SwitchedOver(u: Tree, cfg: Config, s: State) {
    && SyncInv(u, cfg, None, s) && GoodOrEmpty(u, s.t) && s.next == -1 && s.numBlocks == 1
    && Steady(u, s.t, 0, OTHER.hash)
    && (forall i: nat | 1 <= i <= cfg.depth :: Long(i).hash in s.t)
    && (forall x | x in s.t :: s.t[x].blk.height <= cfg.depth)
  }

  lemma EarlySteady(u: Tree, cfg: Config, s: State, c: seq<Block>)
    requires SyncInv(u, cfg, None, s) && Early(u, s.t, cfg.depth) && IsChain(u, c) && TipOf(s.t) == Some(Last(c).hash)
    ensures Steady(u, s.t, 0, Last(c).hash)
  {
    hide UniqueSlots, Contiguous, Bottomed, MainIs, Follows;
    var lo := SyncedSteady(u, cfg, None, s, c);
    var tip :| Steady(u, s.t, 0, tip);
    Queries(u, s.t, 0, tip);
  }

  lemma FirstChain(u: Tree, cfg: Config, n: nat)
    requires u == World() && Settings(u, cfg) && n == cfg.depth
    ensures SyncInv(u, cfg, None, FRESH) && OnChain(u, FRESH.t, LongChain(n)) && IsChain(u, LongChain(n))
    ensures var s := RunToTip(u, cfg, None, FRESH, LongChain(n));
      && Early(u, s.t, n) && Steady(u, s.t, 0, Long(n).hash) && GoodOrEmpty(u, s.t)
      && (forall i: nat | i <= n :: Long(i).hash in s.t)
      && OnChain(u, s.t, OTHER_CHAIN)
  {
    hide RunToTip, UniqueSlots, Contiguous, Bottomed, Grounded, TipOf;
    WorldFacts(n);
    var c := LongChain(n);
    assert Early(u, FRESH.t, n);
    EarlyRun(u, cfg, None, FRESH, c);
    var s := RunToTip(u, cfg, None, FRESH, c);
    EarlySteady(u, cfg, s, c);
    assert Last(c) == Long(n);
    forall i: nat | i <= n ensures OnMain(s.t, Long(i).hash) {
      ChainAncestor(u, c, n, i);
      assert c[i] == Long(i) && Fits(u, c[i]) && Between(u, Long(i).hash, 0, Long(n).hash);
    }
    ChainAncestor(u, c, n, 0);
    assert Contains(u, OTHER_CHAIN, 0, Long(n).hash);
  }

  lemma SecondChain(u: Tree, cfg: Config, n: nat, s: State)
    requires u == World() && Settings(u, cfg) && 1 <= n == cfg.depth && SyncInv(u, cfg, None, s)
    requires Early(u, s.t, n) && GoodOrEmpty(u, s.t) && (forall i: nat | i <= n :: Long(i).hash in s.t)
    requires OnChain(u, s.t, OTHER_CHAIN)
    ensures IsChain(u, OTHER_CHAIN) && SwitchedOver(u, cfg, RunToTip(u, cfg, None, s, OTHER_CHAIN))
  {
    hide RunToTip, UniqueSlots, Contiguous, Bottomed, Grounded, MainIs, TipOf, Good;
    WorldFacts(n);
    EarlyRun(u, cfg, None, s, OTHER_CHAIN);
    EarlySteady(u, cfg, RunToTip(u, cfg, None, s, OTHER_CHAIN), OTHER_CHAIN);
  }

  /** What the step after the second switch leaves behind. */
  ghost predicate Strays(t: Table, n: nat) {
    forall i: nat | 4 <= i <= n :: OffMain(t, Long(i).hash) && t[Long(i).hash].blk.height == i
  }

  lemma AttachThree(u: Tree, cfg: Config, s: State, n: nat, c: seq<Block>)
    requires u == World() && Settings(u, cfg) && 4 <= n == cfg.depth && SwitchedOver(u, cfg, s)
    requires IsChain(u, c) && c == LongChain(2 * n + 1)
    ensures var bs := c[1..4];
      && Slice(u, c, 1, bs) && Contains(u, c, 0, OTHER.hash) && AttachBlocks(u, s.t, bs).AttachedBlocks?
      && (var a := AttachBlocks(u, s.t, bs).t;
          && Steady(u, a, 0, Long(3).hash) && Strays(a, n)
          && (forall x | x in a :: a[x].blk.height <= n))
  {
    hide UniqueSlots, Contiguous, Bottomed, Grounded, AttachBlocks, SyncInv, GoodOrEmpty, Grown;
    var bs := c[1..4];
    RangeSlice(u, c, 1, 3);
    assert Range(c, 1, 3) == bs && bs[0] == Long(1) && Last(bs) == Long(3) && c[0] == Long(0);
    assert Slice(u, c, 1, bs);
    OtherLowest(u);
    AttachBlocksGood(u, s.t, 0, OTHER.hash, c, 1, bs);
    AttachBlocksAny(u, s.t, 0, OTHER.hash, c, 1, bs);
    var a := AttachBlocks(u, s.t, bs).t;
    assert Fits(u, c[3]);
    AttachedLow(u, s.t, a, c, bs, n);
    forall i: nat | 4 <= i <= n ensures OffMain(a, Long(i).hash) && a[Long(i).hash].blk.height == i {
      assert Fits(u, a[Long(i).hash].blk);
      assert OnMain(a, Long(i).hash) <==> Between(u, Long(i).hash, 0, Long(3).hash);
    }
  }

  lemma AttachedLow(u: Tree, t: Table, a: Table, c: seq<Block>, bs: seq<Block>, n: nat)
    requires Sound(u, t) && Sound(u, a) && Grown(t, a, bs) && IsChain(u, c) && |c| >= 4 && bs == c[1..4] && n >= 4
    requires forall x | x in t :: t[x].blk.height <= n
    ensures forall x | x in a :: a[x].blk.height <= n
  {
    forall x | x in a ensures a[x].blk.height <= n {
      assert Fits(u, a[x].blk);
      if x !in t {
        var b :| b in bs && b.hash == x;
        assert b == c[1] || b == c[2] || b == c[3];
        assert Fits(u, b);
      }
    }
  }

  lemma OtherLowest(u: Tree)
    requires u == World() && WellFormed(u)
    ensures OTHER.hash in u && u[OTHER.hash].height == 1 && Lowest(u, 0, OTHER.hash) == Long(0).hash
  {
    assert AncestorAt(u, Hash(0), 0) == Hash(0);
  }

  /** The step against the long chain: three blocks are attached, and then it jumps. */
  lemma {:induction false} JumpStep(u: Tree, cfg: Config, s: State, n: nat, c: seq<Block>)
    requires u == World() && Settings(u, cfg) && 4 <= n == cfg.depth && SwitchedOver(u, cfg, s)
    requires IsChain(u, c) && c == LongChain(2 * n + 1)
    ensures var r := UpdateStep(u, cfg, s, Some(c), Some(c), Some(c));
      r.Done? && r.more && Steady(u, r.s.t, n + 1, Long(n + 1).hash) && Strays(r.s.t, n)
  {
    hide UniqueSlots, Contiguous, Bottomed, Grounded, MainIs, AttachBlocks, GoodOrEmpty, UpdateStep, Extend,
      ImportNewTip,
      MainIsRange, TipMessages, Strays, LongChain, IsChain, SyncInv, PruneTable;
    LongFacts(n, c);
    AttachThree(u, cfg, s, n, c);
    var bs := c[1..4];
    var a := AttachBlocks(u, s.t, bs).t;
    OtherLowest(u);
    StepValue(u, cfg, s, 0, OTHER.hash, c, c, Some(c));
    assert Range(c, 1, 3) == bs;
    var lo' := ExtendGood(u, cfg, s, 0, OTHER.hash, c, 1, bs, 3);
    var e := Extend(u, cfg, s, a, OTHER.hash, bs, 3, c);
    assert Fits(u, Last(bs));
    ExtendTable(u, cfg, s, a, 0, OTHER.hash, bs, 3, c);
    assert e.s.t == a;
    assert u[Long(3).hash].height == 3;
    ImportStep(u, cfg, e.s, 0, Long(3).hash, 0, n + 1, c);
    JumpStrays(u, cfg, e.s, n, c);
  }

  lemma LongFacts(n: nat, c: seq<Block>)
    requires c == LongChain(2 * n + 1) && n >= 4
    ensures |c| == 2 * n + 2 && c[3] == Long(3) && c[n + 1] == Long(n + 1)
  {
  }

  lemma JumpStrays(u: Tree, cfg: Config, s: State, n: nat, c: seq<Block>)
    requires Sound(u, s.t) && IsChain(u, c) && n + 1 < |c| && Strays(s.t, n)
    requires forall x | x in s.t :: s.t[x].blk.height <= n
    ensures var r := ImportNewTip(u, cfg, s, n + 1, Some(c)); r.Done? ==> Strays(r.s.t, n)
  {
    hide ImportNewTip;
    var b := c[n + 1];
    assert Fits(u, b);
    assert b.hash in s.t ==> Fits(u, s.t[b.hash].blk);
    forall i: nat | 4 <= i <= n ensures
      var r := ImportNewTip(u, cfg, s, n + 1, Some(c));
      r.Done? ==> OffMain(r.s.t, Long(i).hash) && r.s.t[Long(i).hash].blk.height == i
    {
      JumpLeaves(u, cfg, s, n + 1, c, Long(i).hash);
    }
  }

  /** A run of strays makes for a long walk. */
  lemma {:induction false} LongWalk(t: Table, i: nat, n: nat)
    requires Stepped(t) && Strays(t, n) && 4 <= i <= n
    requires forall k: nat | 4 <= k <= n :: t[Long(k).hash].blk.parent == Long(k).parent
    ensures |ForkWalk(t, Long(i).hash)| >= i - 3
    decreases i
  {
    var h := Long(i).hash;
    assert OffMain(t, h) && StepsDown(t, h) && t[h].blk.parent == Long(i).parent;
    if i > 4 {
      assert Long(i).parent == Long(i - 1).hash;
      LongWalk(t, i - 1, n);
    }
  }

  lemma LongChainStrays(u: Tree, cfg: Config, s: State, n: nat, c: seq<Block>)
    requires u == World() && Settings(u, cfg) && 4 <= n == cfg.depth && SwitchedOver(u, cfg, s)
    requires IsChain(u, c) && c == LongChain(2 * n + 1) && OnChain(u, s.t, c)
    ensures var t := RunToTip(u, cfg, None, s, c).t; forall i: nat | 4 <= i <= n :: OffMain(t, Long(i).hash)
  {
    hide UniqueSlots, Contiguous, Bottomed, Grounded, MainIs, GoodOrEmpty, UpdateStep, OnChain, IsChain, SyncInv,
      LongChain;
    JumpStep(u, cfg, s, n, c);
    assert SyncInv(u, cfg, None, s);
    StepProgress(u, cfg, None, s, c);
    var r := UpdateStep(u, cfg, s, Some(c), Some(c), Some(c));
    LongFacts(n, c);
    forall i: nat | 4 <= i <= n ensures OffMain(RunToTip(u, cfg, None, s, c).t, Long(i).hash) {
      assert Left(u, r.s.t, n + 1, Long(n + 1).hash, Long(i).hash);
      StrayRun(u, cfg, None, r.s, n + 1, Long(n + 1).hash, c, Long(i).hash);
    }
  }

  // ----- The answers

  /** So many steps in which the base chain stands still. */
  function Repeat(c: seq<Block>, n: nat): seq<Answers> {
    if n == 0 then [] else [Answers(Some(c), Some(c), Some(c))] + Repeat(c, n - 1)
  }

  lemma {:induction false} RepeatAuthentic(u: Tree, c: seq<Block>, n: nat)
    requires IsChain(u, c)
    ensures forall a | a in Repeat(c, n) :: AnswersAuthentic(u, a)
  {
    if n > 0 { RepeatAuthentic(u, c, n - 1); }
  }

  lemma {:induction false} RepeatSnapshots(c: seq<Block>, n: nat)
    ensures forall x | x in Snapshots(Repeat(c, n)) :: x == c
  {
    if n > 0 {
      var r := Repeat(c, n);
      assert r[1..] == Repeat(c, n - 1);
      RepeatSnapshots(c, n - 1);
      assert Snapshots(r) == [c] + [c] + [c] + Snapshots(Repeat(c, n - 1));
    }
  }

  lemma {:induction false} SnapshotsConcat(a: seq<Answers>, b: seq<Answers>)
    ensures Snapshots(a + b) == Snapshots(a) + Snapshots(b)
    decreases |a|
  {
    if a == [] {
      assert a + b == b;
    } else {
      assert (a + b)[1..] == a[1..] + b && (a + b)[0] == a[0];
      SnapshotsConcat(a[1..], b);
    }
  }

  lemma {:induction false} RunConcat(u: Tree, cfg: Config, s: State, a: seq<Answers>, b: seq<Answers>)
    requires Sound(u, s.t)
    requires (forall x | x in a :: AnswersAuthentic(u, x)) && (forall x | x in b :: AnswersAuthentic(u, x))
    requires RunSteps(u, cfg, s, a).Some?
    ensures RunSteps(u, cfg, s, a + b) == RunSteps(u, cfg, RunSteps(u, cfg, s, a).value, b)
    decreases |a|
  {
    hide UpdateStep, Sound;
    if a == [] {
      assert a + b == b;
    } else {
      assert (a + b)[1..] == a[1..] + b && (a + b)[0] == a[0];
      assert AnswersAuthentic(u, a[0]);
      RunConcat(u, cfg, StepWith(u, cfg, s, a[0]).s, a[1..], b);
    }
  }

  lemma RunOne(u: Tree, cfg: Config, s: State, c: seq<Block>, n: nat)
    requires Sound(u, s.t) && IsChain(u, c)
    ensures forall a | a in Repeat(c, n) :: AnswersAuthentic(u, a)
    ensures forall a | a in Repeat(c, n + 1) :: AnswersAuthentic(u, a)
    ensures var r := UpdateStep(u, cfg, s, Some(c), Some(c), Some(c));
      !r.StepAborted? ==> RunSteps(u, cfg, s, Repeat(c, n + 1)) == RunSteps(u, cfg, r.s, Repeat(c, n))
  {
    hide UpdateStep, Sound, IsChain;
    RepeatAuthentic(u, c, n);
    RepeatAuthentic(u, c, n + 1);
    assert Repeat(c, n + 1)[1..] == Repeat(c, n) && Repeat(c, n + 1)[0] == Answers(Some(c), Some(c), Some(c));
  }

  lemma RunNone(u: Tree, cfg: Config, s: State, c: seq<Block>)
    requires Sound(u, s.t)
    ensures RunSteps(u, cfg, s, Repeat(c, 0)) == Some(s)
  {
  }

  /** The run to the tip as a run with so many answers. */
  lemma {:induction false} RunInputs(u: Tree, cfg: Config, origin: Option<Hash>, s: State,
                                     c: seq<Block>) returns (n: nat)
    requires SyncInv(u, cfg, origin, s) && OnChain(u, s.t, c) && IsChain(u, c) && Sound(u, s.t)
    ensures forall a | a in Repeat(c, n) :: AnswersAuthentic(u, a)
    ensures RunSteps(u, cfg, s, Repeat(c, n)) == Some(RunToTip(u, cfg, origin, s, c))
    decreases Phase(c, s), Distance(c, s)
  {
    hide SyncInv, OnChain, UpdateStep, GoodOrEmpty, Sound, IsChain, AnswersAuthentic, RunSteps, Repeat, Phase, Distance;
    StepProgress(u, cfg, origin, s, c);
    var r := UpdateStep(u, cfg, s, Some(c), Some(c), Some(c));
    var m := 0;
    if r.more {
      m := RunInputs(u, cfg, origin, r.s, c);
    }
    RunOne(u, cfg, s, c, m);
    RunNone(u, cfg, r.s, c);
    n := m + 1;
  }

  lemma SettledShort(depth: nat, c: seq<Block>)
    requires c != [] && |c| <= depth + 1
    ensures Settled(depth, c) == [c[0]]
  {
  }

  /** Two chains that settle nothing but the genesis, and then a third one: that is a base
      chain without deep reorgs. */
  lemma FinalPhases(depth: nat, cs: seq<seq<Block>>, short: set<seq<Block>>, m: nat, c: seq<Block>, g: Block)
    requires m <= |cs| && c != [] && c[0] == g
    requires forall x | x in short :: x != [] && |x| <= depth + 1 && x[0] == g
    requires forall i | 0 <= i < m :: cs[i] in short
    requires forall i | m <= i < |cs| :: cs[i] == c
    ensures Final(depth, cs)
  {
    forall i, j | 0 <= i < j < |cs| ensures Settled(depth, cs[i]) <= cs[j] {
      if i < m {
        SettledShort(depth, cs[i]);
        assert cs[j] in short || cs[j] == c;
      } else {
        assert cs[i] == c && cs[j] == c;
      }
    }
  }

  lemma FinalConcat(depth: nat, a: seq<seq<Block>>, b: seq<seq<Block>>, c: seq<seq<Block>>, c1: seq<Block>,
                    c2: seq<Block>, c3: seq<Block>)
    requires c1 != [] && c2 != [] && c3 != [] && c1[0] == c2[0] == c3[0] && |c1| <= depth + 1 && |c2| <= depth + 1
    requires (forall x | x in a :: x == c1) && (forall x | x in b :: x == c2) && (forall x | x in c :: x == c3)
    ensures Final(depth, a + b + c)
  {
    hide Final;
    var cs := a + b + c;
    forall i | 0 <= i < |a| + |b| ensures cs[i] in {c1, c2} {
      assert cs[i] in a || cs[i] in b;
    }
    forall i | |a| + |b| <= i < |cs| ensures cs[i] == c3 {
      assert cs[i] in c;
    }
    FinalPhases(depth, cs, {c1, c2}, |a| + |b|, c3, c1[0]);
  }

  lemma PhasesFinal(depth: nat, c1: seq<Block>, c2: seq<Block>, c3: seq<Block>, n1: nat, n2: nat, n3: nat)
    requires c1 != [] && c2 != [] && c3 != [] && c1[0] == c2[0] == c3[0] && |c1| <= depth + 1 && |c2| <= depth + 1
    ensures Final(depth, Snapshots(Repeat(c1, n1) + Repeat(c2, n2) + Repeat(c3, n3)))
  {
    hide Final, Snapshots, Repeat;
    SnapshotsConcat(Repeat(c1, n1) + Repeat(c2, n2), Repeat(c3, n3));
    SnapshotsConcat(Repeat(c1, n1), Repeat(c2, n2));
    RepeatSnapshots(c1, n1);
    RepeatSnapshots(c2, n2);
    RepeatSnapshots(c3, n3);
    FinalConcat(depth, Snapshots(Repeat(c1, n1)), Snapshots(Repeat(c2, n2)), Snapshots(Repeat(c3, n3)), c1, c2, c3);
  }

  // ----- The result

  /** For every block range there is a base chain without deep reorgs, and a run of the sync
      task against it, after which the chainstate is in sync but some accepted block is
      stuck: polling from it never reaches the tip. */
  lemma {:induction false} StuckReachable(range: nat)
    returns (u: Tree, cfg: Config, inputs: seq<Answers>, c: seq<Block>, stuck: Hash)
    requires 1 <= range && 2 * range + 8 <= 0x1_0000_0000
    ensures cfg.range == range && Settings(u, cfg) && (forall a | a in inputs :: AnswersAuthentic(u, a))
    ensures Final(cfg.depth, Snapshots(inputs)) && IsChain(u, c)
    ensures var r := RunSteps(u, cfg, FRESH, inputs);
      && r.Some? && TipOf(r.value.t) == Some(Last(c).hash)
      && Accepted(r.value.t, stuck, c) && !Arrives(u, r.value.t, c, range, stuck)
  {
    hide RunSteps, UniqueSlots, Contiguous, Bottomed, Grounded, MainIs, Final, Snapshots, RunToTip, Accepted, Arrives,
      TipOf,
      UpdateStep, AnswersAuthentic, Follows, SyncInv, OnChain, GoodOrEmpty, Early, World, LongChain, Long, Repeat,
      IsChain;
    u, cfg := World(), Settings3(range);
    var n := range + 3;
    var c1, c2 := LongChain(n), OTHER_CHAIN;
    c := LongChain(2 * n + 1);
    WorldFacts(n);
    WorldFacts(2 * n + 1);
    FirstChain(u, cfg, n);
    var s1 := RunToTip(u, cfg, None, FRESH, c1);
    SecondChain(u, cfg, n, s1);
    var s2 := RunToTip(u, cfg, None, s1, c2);
    ThirdChain(u, cfg, s2, n, c);
    var s3 := RunToTip(u, cfg, None, s2, c);
    var n1 := RunInputs(u, cfg, None, FRESH, c1);
    assert Sound(u, s1.t) && Sound(u, s2.t);
    var n2 := RunInputs(u, cfg, None, s1, c2);
    var n3 := RunInputs(u, cfg, None, s2, c);
    var i12 := Repeat(c1, n1) + Repeat(c2, n2);
    inputs := i12 + Repeat(c, n3);
    RunConcat(u, cfg, FRESH, Repeat(c1, n1), Repeat(c2, n2));
    RunConcat(u, cfg, FRESH, i12, Repeat(c, n3));
    ChainStarts(n);
    PhasesFinal(cfg.depth, c1, c2, c, n1, n2, n3);
    stuck := StuckAt(u, cfg, s3, n, c);
  }

  lemma ChainStarts(n: nat)
    ensures LongChain(n) != [] && LongChain(2 * n + 1) != [] && |LongChain(n)| == n + 1 && |OTHER_CHAIN| == 2
    ensures LongChain(n)[0] == OTHER_CHAIN[0] == LongChain(2 * n + 1)[0]
  {
  }

  lemma ThirdChain(u: Tree, cfg: Config, s: State, n: nat, c: seq<Block>)
    requires u == World() && Settings(u, cfg) && 4 <= n == cfg.depth && SwitchedOver(u, cfg, s)
    requires IsChain(u, c) && c == LongChain(2 * n + 1)
    ensures SyncInv(u, cfg, None, s) && OnChain(u, s.t, c) && GoodOrEmpty(u, s.t) && Sound(u, s.t)
    ensures var r := RunToTip(u, cfg, None, s, c); forall i: nat | 4 <= i <= n :: OffMain(r.t, Long(i).hash)
  {
    hide UniqueSlots, Contiguous, Bottomed, Grounded, RunToTip;
    OtherLowest(u);
    assert Contains(u, c, 0, OTHER.hash);
    LongChainStrays(u, cfg, s, n, c);
  }

  lemma StuckAt(u: Tree, cfg: Config, s: State, n: nat, c: seq<Block>) returns (stuck: Hash)
    requires u == World() && Settings(u, cfg) && n == cfg.range + 3 && 2 * n + 2 <= 0x1_0000_0000
    requires SyncInv(u, cfg, None, s) && GoodOrEmpty(u, s.t) && IsChain(u, c) && c == LongChain(2 * n + 1)
    requires TipOf(s.t) == Some(Last(c).hash) && (forall i: nat | 4 <= i <= n :: OffMain(s.t, Long(i).hash))
    ensures Sound(u, s.t) && Accepted(s.t, stuck, c) && !Arrives(u, s.t, c, cfg.range, stuck)
  {
    hide UniqueSlots, Contiguous, Bottomed, Grounded, MainIs, Follows, Accepted, Arrives, TipOf, GoodOrEmpty;
    var lo := SyncedSteady(u, cfg, None, s, c);
    SoundIsStepped(u, s.t);
    assert Synced(u, s.t, lo, c);
    forall i: nat | 4 <= i <= n
      ensures s.t[Long(i).hash].blk.height == i && s.t[Long(i).hash].blk.parent == Long(i).parent
    {
      assert OffMain(s.t, Long(i).hash) && Fits(u, s.t[Long(i).hash].blk);
    }
    LongWalk(s.t, n, n);
    assert c[n] == Long(n) && Strayed(s.t, c, n);
    var j := LongStrayLoops(u, s.t, lo, c, cfg.range, n);
    stuck := c[j].hash;
  }
}
