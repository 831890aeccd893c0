/** Runs of the sync task, from an empty database, that lead to what the conditions for a
    failure describe: a reorg below main[L] that the process survives, one on which it
    aborts, and a request that takes the last element of an empty vector. */
module Witnesses {
  import opened BlockTree
  import opened ChainTable
  import opened Reorg
  import opened Notify
  import opened SyncSpec
  import opened SyncSafety
  import opened SyncRuns
  import opened DeepReorg
  import opened CheckedRuns
  import opened Livelock

  // ----- The blocks

  /** The left chain has the even numbers; the right one leaves it above height f, and has odd
      numbers from there on. */
  function NodeAt(f: nat, id: nat): Node {
    if id % 2 == 0 then Node(if id == 0 then NoHash else Hash(Max(0, id - 2)), id / 2)
    else Node(if id / 2 == f + 1 then Hash(2 * f) else Hash(Max(0, id - 2)), id / 2)
  }

  ghost function Forked(f: nat): Tree {
    imap h: Hash | h.Hash? && (h.id % 2 == 0 || h.id > 2 * f + 2) :: NodeAt(f, h.id)
  }

  function LeftBlock(i: nat): Block { Block(Hash(2 * i), if i == 0 then NoHash else Hash(2 * i - 2), i, Payload(0)) }

  function RightBlock(f: nat, i: nat): Block
    requires i > f
  {
    Block(Hash(2 * i + 1), if i == f + 1 then Hash(2 * f) else Hash(2 * i - 1), i, Payload(0))
  }

  function Left(n: nat): seq<Block> { seq(n + 1, i requires 0 <= i <= n => LeftBlock(i)) }

  function Right(f: nat, n: nat): seq<Block> {
    seq(n + 1, i requires 0 <= i <= n => if i <= f then LeftBlock(i) else RightBlock(f, i))
  }

  lemma ForkedRooted(f: nat, h: Hash)
    ensures NoHash !in Forked(f) && (h in Forked(f) ==> Rooted(Forked(f), h))
  {
  }

  lemma LeftFits(f: nat, i: nat)
    ensures Fits(Forked(f), LeftBlock(i)) && LeftBlock(i).height == i
    ensures i > 0 ==> LeftBlock(i).parent == LeftBlock(i - 1).hash
  {
  }

  lemma RightFits(f: nat, i: nat)
    requires i > f
    ensures Fits(Forked(f), RightBlock(f, i)) && RightBlock(f, i).height == i
    ensures RightBlock(f, i).parent == if i == f + 1 then LeftBlock(f).hash else RightBlock(f, i - 1).hash
  {
  }

  lemma ForkedFacts(f: nat, n: nat)
    ensures WellFormed(Forked(f)) && NoHash !in Forked(f)
    ensures IsChain(Forked(f), Left(n)) && IsChain(Forked(f), Right(f, n))
  {
    hide Rooted, Forked, Fits, LeftBlock, RightBlock;
    var u := Forked(f);
    ForkedRooted(f, NoHash);
    forall h | h in u ensures Rooted(u, h) { ForkedRooted(f, h); }
    var a, b := Left(n), Right(f, n);
    forall i | 0 <= i <= n
      ensures Fits(u, a[i]) && a[i].height == i && Fits(u, b[i]) && b[i].height == i
    {
      LeftFits(f, i);
      if i > f { RightFits(f, i); }
    }
    forall i, j | 0 <= i && j == i + 1 <= n ensures a[j].parent == a[i].hash && b[j].parent == b[i].hash {
      LeftFits(f, j);
      if j > f { RightFits(f, j); }
    }
  }

  // ----- A step that reaches the end of the chain

  lemma {:induction false} ShortStep(u: Tree, cfg: Config, s: State, lo: nat, tip: Hash, c: seq<Block>)
    returns (t1: Table)
    requires SyncInv(u, cfg, None, s) && Placed(u, None, s, lo, tip) && s.next == -1 && s.numBlocks == 1
    requires IsChain(u, c) && Contains(u, c, lo, tip) && u[tip].height < |c| < u[tip].height + 3
    requires c[u[tip].height].hash in s.t || c[u[tip].height].parent in s.t
    requires Last(c).hash != tip
    ensures Steady(u, t1, lo, Last(c).hash) && t1.Keys == s.t.Keys + Hashes(c[u[tip].height..])
    ensures var r := UpdateStep(u, cfg, s, Some(c), Some(c), Some(c));
      && r.Done? && r.s.next == -1 && r.s.numBlocks == 1 && r.s.t == Pruned(cfg, t1, |c| - 1)
      && SyncInv(u, cfg, None, r.s)
  {
    hide UniqueSlots, Contiguous, Bottomed, Grounded, MainIs, AttachBlocks, Extend, Follows, UpdateStep, Range,
      MainIsRange, TipMessages, Extended, Moved;
    TipStored(u, s.t, lo, tip);
    StepValue(u, cfg, s, lo, tip, c, c, Some(c));
    var start := u[tip].height;
    var bs := Range(c, start, 3);
    assert bs == c[start..] by { WholeRange(c, start); }
    RangeSlice(u, c, start, 3);
    AttachBlocksGood(u, s.t, lo, tip, c, start, bs);
    AttachBlocksAny(u, s.t, lo, tip, c, start, bs);
    t1 := AttachBlocks(u, s.t, bs).t;
    var lo' := ExtendGood(u, cfg, s, lo, tip, c, start, bs, 3);
    ExtendPrunes(u, cfg, s, t1, lo, tip, bs, 3, c);
    AllAttached(u, s.t, t1, lo, c, start, bs);
    var lo1, tip1 := RunningStep(u, cfg, None, s, lo, tip, c, c, Some(c));
  }

  lemma WholeRange(c: seq<Block>, start: nat)
    requires start < |c| < start + 3
    ensures Range(c, start, 3) == c[start..]
  {
  }

  lemma ExtendPrunes(u: Tree, cfg: Config, s: State, t: Table, lo: nat, tip: Hash, bs: seq<Block>, num: nat,
                     c: seq<Block>)
    requires bs != [] && Sound(u, s.t) && Steady(u, t, lo, Last(bs).hash) && Fits(u, Last(bs)) && tip != Last(bs).hash
    ensures var e := Extend(u, cfg, s, t, tip, bs, num, c); e.Done? ==> e.s.t == Pruned(cfg, t, Last(bs).height)
  {
    hide UniqueSlots, Contiguous, MainIs, Bottomed, PushZmqBlocks, Pruned, AttachList;
    Queries(u, t, lo, Last(bs).hash);
  }

  lemma OneAttached(u: Tree, t1: Table, lo: nat, c: seq<Block>, start: nat, bs: seq<Block>, i: nat)
    requires Slice(u, c, start, bs) && Sound(u, t1) && MainIs(u, t1, lo, Last(bs).hash) && lo <= start && i < |bs|
    ensures bs[i].hash in t1
  {
    assert bs[i] == c[start + i] && Fits(u, bs[i]);
    ChainAncestor(u, c, start + |bs| - 1, start + i);
    assert Between(u, bs[i].hash, lo, Last(bs).hash) && OnMain(t1, bs[i].hash);
  }

  lemma AllAttached(u: Tree, t: Table, t1: Table, lo: nat, c: seq<Block>, start: nat, bs: seq<Block>)
    requires Slice(u, c, start, bs) && Steady(u, t1, lo, Last(bs).hash) && Grown(t, t1, bs) && lo <= start
    ensures t1.Keys == t.Keys + Hashes(bs)
  {
    hide UniqueSlots, Contiguous, Bottomed, MainIs, Slice;
    forall b | b in bs ensures b.hash in t1 {
      var i :| 0 <= i < |bs| && bs[i] == b;
      OneAttached(u, t1, lo, c, start, bs, i);
    }
  }

  // ----- The run

  /** So the maximum reorg depth is the height of the fork. */
  function Setting(f: nat, range: nat): Config { Config(f, range, true) }

  function Still(c: seq<Block>): Answers { Answers(Some(c), Some(c), Some(c)) }

  function Inputs(f: nat): seq<Answers> { [Still(Left(2 * f)), Still(Left(f + 1)), Still(Right(f, f + 2))] }

  /** One block is imported: the one at which the chains fork. */
  lemma FirstStep(f: nat, u: Tree, cfg: Config)
    requires u == Forked(f) && Settings(u, cfg) && cfg.depth == f && IsChain(u, Left(2 * f))
    ensures var c := Some(Left(2 * f)); var r := UpdateStep(u, cfg, FRESH, c, c, c);
      && r.Done? && r.s.t == map[LeftBlock(f).hash := Row(LeftBlock(f), 0)] && r.s.next == -1 && r.s.numBlocks == 1
      && SyncInv(u, cfg, None, r.s) && Placed(u, None, r.s, f, LeftBlock(f).hash)
  {
    hide Good, Pruned, PushZmqBlocks, Forked, Follows, Steady;
    var c := Left(2 * f);
    var b := LeftBlock(f);
    LeftFits(f, f);
    assert TipHeight(map[]) == -1;
    assert GenesisHeight(cfg, c) == f && |c| == 2 * f + 1 && c[f] == b;
    OneBlock(c, f);
    FirstImportGood(u, b);
    var t: Table := map[b.hash := Row(b, 0)];
    assert Steady(u, t, f, b.hash) by { GoodSteady(u, t, f, b.hash); }
    assert Pruned(cfg, t, TipHeight(t)) == t by { FirstUnpruned(u, cfg, t, b); }
    EmptyStep(u, cfg, None, FRESH, c, Some(c), Some(c));
  }

  lemma OneBlock(c: seq<Block>, i: nat)
    requires i < |c|
    ensures Range(c, i, 1) == [c[i]]
  {
  }

  lemma FirstUnpruned(u: Tree, cfg: Config, t: Table, b: Block)
    requires Steady(u, t, b.height, b.hash) && Fits(u, b) && b.height == cfg.depth
    ensures Pruned(cfg, t, TipHeight(t)) == t
  {
    hide UniqueSlots, Contiguous, Bottomed, MainIs;
    Queries(u, t, b.height, b.hash);
  }

  /** The first block of the left branch is attached. */
  lemma SecondStep(f: nat, u: Tree, cfg: Config, s: State)
    requires u == Forked(f) && Settings(u, cfg) && cfg.depth == f && IsChain(u, Left(f + 1))
    requires SyncInv(u, cfg, None, s) && Placed(u, None, s, f, LeftBlock(f).hash) && s.next == -1 && s.numBlocks == 1
    requires s.t.Keys == {LeftBlock(f).hash}
    ensures Holds(u, s.t, Some(Left(f + 1)))
    ensures var c := Some(Left(f + 1)); var r := UpdateStep(u, cfg, s, c, c, c);
      && r.Done? && r.s.next == -1 && r.s.numBlocks == 1 && SyncInv(u, cfg, None, r.s)
      && Placed(u, None, r.s, f, LeftBlock(f + 1).hash)
      && r.s.t.Keys == {LeftBlock(f).hash, LeftBlock(f + 1).hash}
  {
    hide UniqueSlots, Contiguous, Bottomed, MainIs, UpdateStep, Follows, Forked, Left, LeftBlock, IsChain, Hashes,
      SyncInv;
    var c := Left(f + 1);
    LeftFits(f, f);
    LeftFits(f, f + 1);
    LeftTop(f);
    TipStored(u, s.t, f, LeftBlock(f).hash);
    HoldsOne(u, s.t, f, LeftBlock(f).hash, c);
    var t1 := ShortStep(u, cfg, s, f, LeftBlock(f).hash, c);
    var r := UpdateStep(u, cfg, s, Some(c), Some(c), Some(c));
    assert r.s.t == t1;
    PlacedAt(u, cfg, r.s, f, LeftBlock(f + 1).hash);
  }

  lemma LeftTop(f: nat)
    ensures var c := Left(f + 1);
      && |c| == f + 2 && c[f] == LeftBlock(f) && Last(c) == LeftBlock(f + 1)
      && Hashes(c[f..]) == {LeftBlock(f).hash, LeftBlock(f + 1).hash} && LeftBlock(f).hash != LeftBlock(f + 1).hash
  {
    assert Left(f + 1)[f..] == [LeftBlock(f), LeftBlock(f + 1)];
  }

  lemma RightTop(f: nat)
    ensures var c := Right(f, f + 2);
      && |c| == f + 3 && c[f] == LeftBlock(f) && c[f + 1] == RightBlock(f, f + 1) && Last(c) == RightBlock(f, f + 2)
      && Hashes(c[f + 1..]) == {RightBlock(f, f + 1).hash, RightBlock(f, f + 2).hash}
      && RightBlock(f, f + 2).hash != LeftBlock(f + 1).hash
  {
    assert Right(f, f + 2)[f + 1..] == [RightBlock(f, f + 1), RightBlock(f, f + 2)];
  }

  lemma HoldsOne(u: Tree, t: Table, lo: nat, tip: Hash, c: seq<Block>)
    requires Steady(u, t, lo, tip) && IsChain(u, c) && Contains(u, c, lo, tip)
    ensures Holds(u, t, Some(c))
  {
    hide UniqueSlots, Contiguous, Bottomed;
    forall lo1, tip1 | Steady(u, t, lo1, tip1) ensures Contains(u, c, lo1, tip1) {
      MainUnique(u, t, lo, tip, lo1, tip1);
    }
  }

  lemma PlacedAt(u: Tree, cfg: Config, s: State, lo: nat, tip: Hash)
    requires SyncInv(u, cfg, None, s) && Steady(u, s.t, lo, tip)
    ensures Placed(u, None, s, lo, tip)
  {
    hide UniqueSlots, Contiguous, Bottomed, Follows;
    assert s.t != map[];
    var lo1, tip1 :| Placed(u, None, s, lo1, tip1);
    MainUnique(u, s.t, lo, tip, lo1, tip1);
  }

  /** The base chain switches to the right branch, and the fork is pruned. */
  lemma ThirdStep(f: nat, u: Tree, cfg: Config, s: State)
    requires u == Forked(f) && Settings(u, cfg) && cfg.depth == f <= 1 && IsChain(u, Right(f, f + 2))
    requires SyncInv(u, cfg, None, s) && Placed(u, None, s, f, LeftBlock(f + 1).hash) && s.next == -1
    requires s.numBlocks == 1 && s.t.Keys == {LeftBlock(f).hash, LeftBlock(f + 1).hash}
    ensures Holds(u, s.t, Some(Right(f, f + 2)))
    ensures var c := Some(Right(f, f + 2)); var r := UpdateStep(u, cfg, s, c, c, c);
      && r.Done? && r.s.next == -1 && r.s.numBlocks == 1 && SyncInv(u, cfg, None, r.s)
      && Placed(u, None, r.s, 2, RightBlock(f, f + 2).hash)
      && r.s.t.Keys == {LeftBlock(f + 1).hash, RightBlock(f, 2).hash, RightBlock(f, f + 2).hash}
  {
    hide UniqueSlots, Contiguous, Bottomed, Grounded, MainIs, UpdateStep, Follows, PruneTable, Forked, Right, LeftBlock,
      RightBlock, IsChain, Hashes, SyncInv;
    var c := Right(f, f + 2);
    var tip := LeftBlock(f + 1).hash;
    LeftFits(f, f + 1);
    RightFits(f, f + 1);
    RightFits(f, f + 2);
    RightTop(f);
    TipStored(u, s.t, f, tip);
    ForkLowest(u, f);
    HoldsOne(u, s.t, f, tip, c);
    var t1 := ShortStep(u, cfg, s, f, tip, c);
    var r := UpdateStep(u, cfg, s, Some(c), Some(c), Some(c));
    assert u[Last(c).hash].height == f + 2;
    PrunedGood(u, cfg, t1, f, Last(c).hash);
    PlacedAt(u, cfg, r.s, 2, Last(c).hash);
    ThirdKeys(f, u, t1, c);
  }

  lemma ForkLowest(u: Tree, f: nat)
    requires u == Forked(f) && WellFormed(u)
    ensures LeftBlock(f + 1).hash in u && u[LeftBlock(f + 1).hash].height == f + 1
    ensures Lowest(u, f, LeftBlock(f + 1).hash) == LeftBlock(f).hash
  {
    LeftFits(f, f);
    LeftFits(f, f + 1);
    assert AncestorAt(u, LeftBlock(f).hash, f) == LeftBlock(f).hash;
  }

  lemma ThirdKeys(f: nat, u: Tree, t1: Table, c: seq<Block>)
    requires u == Forked(f) && f <= 1 && IsChain(u, c) && c == Right(f, f + 2)
    requires Steady(u, t1, f, RightBlock(f, f + 2).hash)
    requires t1.Keys == {LeftBlock(f).hash, LeftBlock(f + 1).hash, RightBlock(f, f + 1).hash, RightBlock(f, f + 2).hash}
    ensures PruneTable(t1, 1).Keys == {LeftBlock(f + 1).hash, RightBlock(f, 2).hash, RightBlock(f, f + 2).hash}
  {
    hide UniqueSlots, Contiguous, Bottomed;
    var tip := RightBlock(f, f + 2).hash;
    forall i | f <= i <= f + 2 ensures OnMain(t1, c[i].hash) && t1[c[i].hash].blk.height == i {
      ChainAncestor(u, c, f + 2, i);
      assert Fits(u, c[i]) && Between(u, c[i].hash, f, tip) && Fits(u, t1[c[i].hash].blk);
    }
    var x := LeftBlock(f + 1).hash;
    LeftFits(f, f + 1);
    assert Fits(u, t1[x].blk);
    ChainAncestor(u, c, f + 2, f + 1);
    assert OnMain(t1, x) <==> Between(u, x, f, tip);
    assert c[f] == LeftBlock(f) && c[f + 1] == RightBlock(f, f + 1) && c[f + 2] == RightBlock(f, f + 2);
  }

  /** The chainstate after these three steps. */
  ghost predicate AtFork(f: nat, u: Tree, cfg: Config, s: State)
    requires f <= 1
  {
    && SyncInv(u, cfg, None, s) && Placed(u, None, s, 2, RightBlock(f, f + 2).hash) && s.next == -1
    && s.numBlocks == 1 && s.t.Keys == {LeftBlock(f + 1).hash, RightBlock(f, 2).hash, RightBlock(f, f + 2).hash}
  }

  lemma {:induction false} ThreeSteps(f: nat, range: nat) returns (u: Tree, cfg: Config)
    requires f <= 1 && 1 <= range < 0x8000_0000
    ensures u == Forked(f) && cfg == Setting(f, range) && Settings(u, cfg)
    ensures forall a | a in Inputs(f) :: AnswersAuthentic(u, a)
    ensures RangesHold(u, cfg, FRESH, Inputs(f))
    ensures var r := RunSteps(u, cfg, FRESH, Inputs(f)); r.Some? && AtFork(f, u, cfg, r.value)
  {
    hide UpdateStep, SyncInv, Placed, Forked, Left, Right, LeftBlock, RightBlock, IsChain, Holds;
    u, cfg := Forked(f), Setting(f, range);
    ForkedFacts(f, 2 * f);
    ForkedFacts(f, f + 1);
    ForkedFacts(f, f + 2);
    var a, b, c := Still(Left(2 * f)), Still(Left(f + 1)), Still(Right(f, f + 2));
    FirstStep(f, u, cfg);
    var s1 := StepWith(u, cfg, FRESH, a).s;
    SecondStep(f, u, cfg, s1);
    var s2 := StepWith(u, cfg, s1, b).s;
    ThirdStep(f, u, cfg, s2);
    var s3 := StepWith(u, cfg, s2, c).s;
    EmptyHolds(u, Left(2 * f));
    RunThree(u, cfg, FRESH, a, b, c);
  }

  lemma EmptyHolds(u: Tree, c: seq<Block>)
    requires IsChain(u, c)
    ensures Holds(u, map[], Some(c))
  {
  }

  lemma RunThree(u: Tree, cfg: Config, s: State, a: Answers, b: Answers, c: Answers)
    requires Sound(u, s.t) && AnswersAuthentic(u, a) && AnswersAuthentic(u, b) && AnswersAuthentic(u, c)
    requires !StepWith(u, cfg, s, a).StepAborted?
    requires !StepWith(u, cfg, StepWith(u, cfg, s, a).s, b).StepAborted?
    requires !StepWith(u, cfg, StepWith(u, cfg, StepWith(u, cfg, s, a).s, b).s, c).StepAborted?
    ensures forall x | x in [a, b, c] :: AnswersAuthentic(u, x)
    ensures RunSteps(u, cfg, s, [a, b, c]) ==
      Some(StepWith(u, cfg, StepWith(u, cfg, StepWith(u, cfg, s, a).s, b).s, c).s)
    ensures RangesHold(u, cfg, s, [a, b, c]) <==>
      && Holds(u, s.t, a.range) && Holds(u, StepWith(u, cfg, s, a).s.t, b.range)
      && Holds(u, StepWith(u, cfg, StepWith(u, cfg, s, a).s, b).s.t, c.range)
  {
    hide StepWith, Holds, AnswersAuthentic, Sound;
    var s1 := StepWith(u, cfg, s, a).s;
    var s2 := StepWith(u, cfg, s1, b).s;
    var s3 := StepWith(u, cfg, s2, c).s;
    assert [a, b, c][1..] == [b, c] && [b, c][1..] == [c] && [c][1..] == [];
    assert RunSteps(u, cfg, s3, []) == Some(s3) && RangesHold(u, cfg, s3, []);
    assert RunSteps(u, cfg, s2, [c]) == Some(s3);
    assert RangesHold(u, cfg, s2, [c]) <==> Holds(u, s2.t, c.range);
    assert RunSteps(u, cfg, s1, [b, c]) == Some(s3);
    assert RangesHold(u, cfg, s1, [b, c]) <==> Holds(u, s1.t, b.range) && Holds(u, s2.t, c.range);
  }

  // ----- The reorg below main[L]

  lemma RightLowest(u: Tree, f: nat)
    requires u == Forked(f) && WellFormed(u) && f <= 1
    ensures var tip := RightBlock(f, f + 2).hash;
      && tip in u && u[tip].height == f + 2 && Lowest(u, 2, tip) == RightBlock(f, 2).hash
      && u[RightBlock(f, 2).hash].parent == RightBlock(f, 2).parent
  {
    RightFits(f, f + 2);
    RightFits(f, 2);
    assert AncestorAt(u, RightBlock(f, 2).hash, 2) == RightBlock(f, 2).hash;
  }

  /** What the walks from both chains come to in that chainstate. */
  lemma ForkEnds(f: nat, u: Tree, cfg: Config, s: State)
    requires f <= 1 && u == Forked(f) && AtFork(f, u, cfg, s) && Stepped(s.t)
    ensures ForkEnd(s.t, RightBlock(f, 2).parent) == RightBlock(f, 2).parent
    ensures ForkEnd(s.t, LeftBlock(f + 1).hash) == LeftBlock(f).hash && |ForkWalk(s.t, LeftBlock(f + 1).hash)| == 1
  {
    hide UniqueSlots, Contiguous, Bottomed, Follows;
    var x := LeftBlock(f + 1).hash;
    var tip := RightBlock(f, f + 2).hash;
    RightLowest(u, f);
    LeftFits(f, f + 1);
    assert Fits(u, s.t[x].blk);
    assert OnMain(s.t, x) <==> Between(u, x, 2, tip);
    if f == 1 { assert AncestorAt(u, tip, 2) == RightBlock(f, 2).hash; }
    assert OffMain(s.t, x) && StepsDown(s.t, x) && s.t[x].blk.parent == LeftBlock(f).hash;
    assert LeftBlock(f).hash !in s.t && RightBlock(f, 2).parent !in s.t;
  }

  /** The way back to the left chain is fatal exactly if the right branch was pruned beyond
      the fork. */
  lemma BackIsFatal(f: nat, u: Tree, cfg: Config, s: State)
    requires f <= 1 && u == Forked(f) && AtFork(f, u, cfg, s) && Stepped(s.t)
    ensures var tip := RightBlock(f, f + 2).hash; var c := Left(f + 3);
      && |c| == f + 4 && !Contains(u, c, 2, tip) && c[f + 2].parent in s.t
      && (Fatal(u, true, s.t, 2, tip, c, f + 2) <==> f == 0)
  {
    hide UniqueSlots, Contiguous, Bottomed, Follows, ForkWalk, ForkEnd, Severed;
    var tip := RightBlock(f, f + 2).hash;
    var c := Left(f + 3);
    RightLowest(u, f);
    ForkEnds(f, u, cfg, s);
    assert c[2] == LeftBlock(2) && c[f + 2].parent == LeftBlock(f + 1).hash;
    FatalValue(u, true, s.t, 2, tip, c, f + 2);
    SeveredValue(u, s.t, 2, tip, c[f + 2].parent);
    if f == 1 {
      forall x | Dangling(s.t, x) ensures s.t[x].blk.height <= 2 {
        assert Fits(u, s.t[x].blk);
      }
    }
  }

  lemma SeveredValue(u: Tree, t: Table, lo: nat, tip: Hash, q: Hash)
    requires WellFormed(u) && MainIs(u, t, lo, tip) && Stepped(t)
    ensures Severed(u, t, lo, tip, q) <==> ForkEnd(t, u[Lowest(u, lo, tip)].parent) != ForkEnd(t, q)
  {
  }

  /** For every block range there is a run, with all ranges on chains that contain main[L],
      and then a range of a chain that does not: the process goes on with that chain. */
  lemma {:induction false} SurvivesReachable(range: nat)
    returns (u: Tree, cfg: Config, inputs: seq<Answers>, c: seq<Block>)
    requires 1 <= range < 0x8000_0000
    ensures cfg == Config(1, range, true) && Settings(u, cfg) && (forall a | a in inputs :: AnswersAuthentic(u, a))
    ensures RangesHold(u, cfg, FRESH, inputs) && IsChain(u, c) && RunSteps(u, cfg, FRESH, inputs).Some?
    ensures var s := RunSteps(u, cfg, FRESH, inputs).value;
      var r := UpdateStep(u, cfg, s, Some(c), Some(c), Some(c));
      && (exists lo, tip :: Steady(u, s.t, lo, tip) && !Contains(u, c, lo, tip))
      && r.Done? && TipOf(r.s.t) == Some(Last(c).hash) && SyncInv(u, cfg, None, r.s)
  {
    hide UniqueSlots, Contiguous, Bottomed, MainIs, RunSteps, RangesHold, UpdateStep, Forked, LeftBlock, RightBlock,
      Left,
      Inputs, Fatal, Follows, IsChain, Contains, TipOf;
    u, cfg := ThreeSteps(1, range);
    inputs := Inputs(1);
    c := Left(4);
    var s := RunSteps(u, cfg, FRESH, inputs).value;
    ForkedFacts(1, 4);
    SoundIsStepped(u, s.t);
    BackIsFatal(1, u, cfg, s);
    var tip := RightBlock(1, 3).hash;
    RightLowest(u, 1);
    AbortsIff(u, cfg, None, s, 2, tip, c, c, Some(c), NO_FAULTS);
    BackAttaches(u, cfg, s, c);
  }

  lemma BackAttaches(u: Tree, cfg: Config, s: State, c: seq<Block>)
    requires u == Forked(1) && cfg.depth == 1 && cfg.sanity && AtFork(1, u, cfg, s) && c == Left(4) && IsChain(u, c)
    requires Sound(u, s.t) && !UpdateStep(u, cfg, s, Some(c), Some(c), Some(c)).StepAborted?
    ensures var r := UpdateStep(u, cfg, s, Some(c), Some(c), Some(c));
      r.Done? && TipOf(r.s.t) == Some(Last(c).hash) && SyncInv(u, cfg, None, r.s)
  {
    hide UniqueSlots, Contiguous, Bottomed, UpdateStep, Follows, IsChain, AttachBlocks, Extend, TipOf, SyncInv, Forked;
    var tip := RightBlock(1, 3).hash;
    RightLowest(u, 1);
    SoundIsStepped(u, s.t);
    StepValue(u, cfg, s, 2, tip, c, c, Some(c));
    var bs := Range(c, 3, 3);
    assert bs == [LeftBlock(3), LeftBlock(4)] && Last(c) == LeftBlock(4) && c[2] == LeftBlock(2);
    RangeSlice(u, c, 3, 3);
    assert bs[0].parent == LeftBlock(2).hash;
    AttachSwaps(u, s.t, 2, tip, c, 3, bs);
    var lo' := DeepExtend(u, cfg, None, s, 2, tip, c, 3, bs, 3);
    var e := Extend(u, cfg, s, AttachBlocks(u, s.t, bs).t, tip, bs, 3, c);
    ShortExtend(u, cfg, s, AttachBlocks(u, s.t, bs).t, tip, bs, 3, c);
    Queries(u, e.s.t, lo', Last(c).hash);
  }

  lemma ShortExtend(u: Tree, cfg: Config, s: State, t: Table, tip: Hash, bs: seq<Block>, num: nat, c: seq<Block>)
    requires bs != [] && Sound(u, s.t) && Sound(u, t) && |bs| < num
    ensures var e := Extend(u, cfg, s, t, tip, bs, num, c); e.Done? ==> !e.more
  {
  }

  /** And a run where the same kind of range aborts the process, since the chains are
      severed. */
  lemma {:induction false} SeveredReachable(range: nat)
    returns (u: Tree, cfg: Config, inputs: seq<Answers>, c: seq<Block>)
    requires 1 <= range < 0x8000_0000
    ensures cfg == Config(0, range, true) && Settings(u, cfg) && (forall a | a in inputs :: AnswersAuthentic(u, a))
    ensures RangesHold(u, cfg, FRESH, inputs) && IsChain(u, c) && RunSteps(u, cfg, FRESH, inputs).Some?
    ensures var s := RunSteps(u, cfg, FRESH, inputs).value;
      && (exists lo, tip :: Steady(u, s.t, lo, tip) && !Contains(u, c, lo, tip)
            && 0 <= StartHeight(u, s, tip) < |c| && c[StartHeight(u, s, tip)].parent in s.t)
      && UpdateStep(u, cfg, s, Some(c), Some(c), Some(c)).StepAborted?
  {
    hide UniqueSlots, Contiguous, Bottomed, MainIs, RunSteps, RangesHold, UpdateStep, Forked, LeftBlock, RightBlock,
      Left,
      Inputs, Fatal, Follows, IsChain, Contains;
    u, cfg := ThreeSteps(0, range);
    inputs := Inputs(0);
    c := Left(3);
    var s := RunSteps(u, cfg, FRESH, inputs).value;
    ForkedFacts(0, 3);
    SoundIsStepped(u, s.t);
    BackIsFatal(0, u, cfg, s);
    var tip := RightBlock(0, 2).hash;
    RightLowest(u, 0);
    AbortsIff(u, cfg, None, s, 2, tip, c, c, Some(c), NO_FAULTS);
    assert Steady(u, s.t, 2, tip) && StartHeight(u, s, tip) == 2;
  }

  // ----- The empty detach query

  /** With two blocks synced, a request from the upper to the lower one, for which the base
      chain answers the height of the lower one, and then has lost the upper one. */
  lemma {:induction false} UndefinedReachable(range: nat, num: nat)
    returns (u: Tree, cfg: Config, inputs: seq<Answers>, from: Hash, to: Hash, ct: seq<Block>, cr: seq<Block>)
    requires 1 <= range < 0x8000_0000
    ensures Settings(u, cfg) && (forall a | a in inputs :: AnswersAuthentic(u, a))
    ensures RangesHold(u, cfg, FRESH, inputs) && IsChain(u, ct) && IsChain(u, cr)
    ensures var r := RunSteps(u, cfg, FRESH, inputs);
      r.Some? && PushZmqBlocks(u, r.value.t, from, to, [], num, ct, ct, cr).Undefined?
  {
    hide UniqueSlots, Contiguous, Bottomed, UpdateStep, SyncInv, Follows, Forked, PushZmqBlocks, Holds, IsChain, MainIs,
      LowestHeight;
    u, cfg := Forked(0), Setting(0, range);
    ForkedFacts(0, 0);
    ForkedFacts(0, 1);
    var a, b := Still(Left(0)), Still(Left(1));
    inputs := [a, b];
    FirstStep(0, u, cfg);
    var s1 := StepWith(u, cfg, FRESH, a).s;
    SecondStep(0, u, cfg, s1);
    var s2 := StepWith(u, cfg, s1, b).s;
    EmptyHolds(u, Left(0));
    RunTwo(u, cfg, FRESH, a, b);
    from, to, ct, cr := LeftBlock(1).hash, LeftBlock(0).hash, Left(1), Left(0);
    TwoBlocks(u, s2.t, num, ct, cr);
  }

  lemma RunTwo(u: Tree, cfg: Config, s: State, a: Answers, b: Answers)
    requires Sound(u, s.t) && AnswersAuthentic(u, a) && AnswersAuthentic(u, b)
    requires !StepWith(u, cfg, s, a).StepAborted?
    requires !StepWith(u, cfg, StepWith(u, cfg, s, a).s, b).StepAborted?
    ensures forall x | x in [a, b] :: AnswersAuthentic(u, x)
    ensures RunSteps(u, cfg, s, [a, b]) == Some(StepWith(u, cfg, StepWith(u, cfg, s, a).s, b).s)
    ensures RangesHold(u, cfg, s, [a, b]) <==>
      Holds(u, s.t, a.range) && Holds(u, StepWith(u, cfg, s, a).s.t, b.range)
  {
    hide StepWith, Holds, AnswersAuthentic, Sound;
    var s1 := StepWith(u, cfg, s, a).s;
    var s2 := StepWith(u, cfg, s1, b).s;
    assert [a, b][1..] == [b] && [b][1..] == [];
    assert RunSteps(u, cfg, s2, []) == Some(s2) && RangesHold(u, cfg, s2, []);
    assert RunSteps(u, cfg, s1, [b]) == Some(s2);
    assert RangesHold(u, cfg, s1, [b]) <==> Holds(u, s1.t, b.range);
  }

  lemma TwoBlocks(u: Tree, t: Table, num: nat, ct: seq<Block>, cr: seq<Block>)
    requires u == Forked(0) && Steady(u, t, 0, LeftBlock(1).hash) && ct == Left(1) && cr == Left(0)
    requires IsChain(u, ct) && IsChain(u, cr)
    ensures PushZmqBlocks(u, t, LeftBlock(1).hash, LeftBlock(0).hash, [], num, ct, ct, cr).Undefined?
  {
    hide UniqueSlots, Contiguous, Bottomed, PushZmqBlocks, IsChain, LowestHeight, LegalAnswer;
    var from := LeftBlock(1).hash;
    SendUpdatesLegal(u, t, 0, from, from, LeftBlock(0).hash, num, ct, ct, cr);
    LeftFits(0, 1);
    assert OnMain(t, from) && Fits(u, t[from].blk);
    ChainHeight(u, ct, 0);
    assert ct[0] == LeftBlock(0) && HeightOf(ct, LeftBlock(0).hash) == 0;
    assert ForkHeight(t, from, ct) == 1;
  }
}
