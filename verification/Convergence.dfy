/** Convergence of the sync task: against a base chain that stands still, repeated
    steps terminate, and the local tip is then the tip of the base chain. */
module Convergence {
  import opened BlockTree
  import opened ChainTable
  import opened Reorg
  import opened Notify
  import opened SyncSpec
  import opened SyncSafety
  import opened SyncRuns

  /** The local main[L] is on chain c. */
  ghost predicate OnChain(u: Tree, t: Table, c: seq<Block>) {
    t == map[] || exists lo, tip :: Steady(u, t, lo, tip) && Contains(u, c, lo, tip)
  }

  ghost predicate GoodOrEmpty(u: Tree, t: Table) {
    t == map[] || exists lo, tip :: Good(u, t, lo, tip)
  }

  /** The local tip is on chain c. */
  ghost predicate TipOn(c: seq<Block>, t: Table) {
    0 <= TipHeight(t) < |c| && TipOf(t) == Some(c[TipHeight(t)].hash)
  }

  /** 2: nothing imported yet; 1: looking for the fork point; 0: catching up. */
  ghost function Phase(c: seq<Block>, s: State): nat {
    if TipHeight(s.t) == -1 then 2 else if s.next == -1 && TipOn(c, s.t) then 0 else 1
  }

  /** How far the current phase still has to go. */
  ghost function Distance(c: seq<Block>, s: State): int {
    if Phase(c, s) == 0 then |c| - 1 - TipHeight(s.t)
    else (if s.next == -1 then TipHeight(s.t) else s.next) - LowestHeight(s.t)
  }

  /** Where the state stands after an import or attach of blocks of c. */
  ghost predicate At(u: Tree, c: seq<Block>, s: State, k: nat) {
    k < |c| && s.next == -1 && exists lo :: Steady(u, s.t, lo, c[k].hash)
  }

  lemma AtPhase(u: Tree, c: seq<Block>, s: State, k: nat)
    requires WellFormed(u) && IsChain(u, c) && At(u, c, s, k)
    ensures TipOf(s.t) == Some(c[k].hash) && TipHeight(s.t) == k
    ensures Phase(c, s) == 0 && Distance(c, s) == |c| - 1 - k
  {
    var lo :| Steady(u, s.t, lo, c[k].hash);
    Queries(u, s.t, lo, c[k].hash);
    assert Fits(u, c[k]);
  }

  /** A successful attempt against c leaves the tip at least at its last block; the
      step ends the run only at the tip of c. */
  lemma AdvanceProgress(u: Tree, cfg: Config, s: State, lo: nat, tip: Hash, c: seq<Block>, start: nat, bs: seq<Block>,
                        num: nat, g: nat)
    requires Settings(u, cfg) && Steady(u, s.t, lo, tip) && Slice(u, c, start, bs) && Contains(u, c, lo, tip)
    requires lo <= start && |bs| <= num && g < |c| && AttachBlocks(u, s.t, bs).AttachedBlocks?
    ensures var r := Advance(u, cfg, s, AttachBlocks(u, s.t, bs).t, tip, bs, num, c, g, Some(c));
      && r.Done? && (exists k | start + |bs| - 1 <= k :: At(u, c, r.s, k))
      && (r.more <==> |bs| == num) && (!r.more ==> At(u, c, r.s, start + |bs| - 1) && r.s.numBlocks == 1)
  {
    hide UniqueSlots, Contiguous, Grounded, Bottomed, MainIs, MainIsRange, AttachBlocks, Extend, ImportNewTip,
      TipMessages, LoAfter;
    var lo' := ExtendGood(u, cfg, s, lo, tip, c, start, bs, num);
    var e := Extend(u, cfg, s, AttachBlocks(u, s.t, bs).t, tip, bs, num, c);
    var k := start + |bs| - 1;
    assert Fits(u, c[k]) && Last(bs) == c[k];
    assert At(u, c, e.s, k);
    if e.more {
      TipStored(u, e.s.t, lo', c[k].hash);
      if k < g {
        ImportStep(u, cfg, e.s, lo', c[k].hash, lo', g, c);
        assert Fits(u, c[g]);
        assert At(u, c, ImportNewTip(u, cfg, e.s, g, Some(c)).s, g);
      } else {
        assert At(u, c, e.s.(numBlocks := Doubled(cfg, e.s.numBlocks)), k);
      }
    }
  }

  /** One step: it ends at the tip of c, or it gets closer. */
  ghost predicate Progress(c: seq<Block>, s: State, r: Step) {
    && r.Done?
    && (if r.more then
          Phase(c, r.s) < Phase(c, s) || (Phase(c, r.s) == Phase(c, s) && 0 <= Distance(c, r.s) < Distance(c, s))
        else c != [] && TipOf(r.s.t) == Some(Last(c).hash) && r.s.next == -1 && r.s.numBlocks == 1)
  }

  lemma EmptyProgress(u: Tree, cfg: Config, s: State, c: seq<Block>)
    requires Settings(u, cfg) && IsChain(u, c) && s.t == map[] && s.next == -1
    ensures Progress(c, s, UpdateStep(u, cfg, s, Some(c), Some(c), Some(c)))
  {
    assert TipHeight(map[]) == -1;
    var g := GenesisHeight(cfg, c);
    hide ImportNewTip;
    FirstImportStep(u, cfg, s, g, c);
    assert Fits(u, c[g]);
    AtPhase(u, c, ImportNewTip(u, cfg, s, g, Some(c)).s, g);
  }

  lemma SearchProgress(u: Tree, cfg: Config, origin: Option<Hash>, s: State, lo: nat, tip: Hash, c: seq<Block>,
                       start: nat, num: nat)
    requires SyncInv(u, cfg, origin, s) && IsChain(u, c) && Placed(u, origin, s, lo, tip)
    requires start == StartHeight(u, s, tip) && lo < start && num > 0
    requires start < |c| ==> c[start].hash !in s.t
    ensures Progress(c, s, SearchBack(cfg, s, start, num))
  {
    hide UniqueSlots, Contiguous, Grounded, Bottomed, MainIs, Follows;
    Queries(u, s.t, lo, tip);
    TipStored(u, s.t, lo, tip);
    SearchInv(u, cfg, origin, s, lo, tip, start, num);
  }

  lemma {:induction false} RunningProgress(u: Tree, cfg: Config, origin: Option<Hash>, s: State, lo: nat, tip: Hash,
                                           c: seq<Block>)
    requires SyncInv(u, cfg, origin, s) && IsChain(u, c) && Placed(u, origin, s, lo, tip) && Contains(u, c, lo, tip)
    ensures Progress(c, s, UpdateStep(u, cfg, s, Some(c), Some(c), Some(c)))
  {
    hide UniqueSlots, Contiguous, Grounded, Bottomed, MainIs, AttachBlocks, Advance, SearchBack, Follows, Range, At,
      Progress,
      UpdateStep;
    TipStored(u, s.t, lo, tip);
    StepValue(u, cfg, s, lo, tip, c, c, Some(c));
    var start := StartHeight(u, s, tip);
    var num := Max(s.numBlocks, 3);
    var bs := Range(c, start, num);
    RangeSlice(u, c, start, num);
    if bs != [] {
      AttachBlocksGood(u, s.t, lo, tip, c, start, bs);
    } else {
      NothingFits(u, s.t);
    }
    if AttachBlocks(u, s.t, bs).NoFit? {
      SearchProgress(u, cfg, origin, s, lo, tip, c, start, num);
    } else {
      AdvanceProgress(u, cfg, s, lo, tip, c, start, bs, num, GenesisHeight(cfg, c));
      ReachedProgress(u, s, lo, tip, c, start, bs, num, UpdateStep(u, cfg, s, Some(c), Some(c), Some(c)));
    }
  }

  lemma ReachedProgress(u: Tree, s: State, lo: nat, tip: Hash, c: seq<Block>, start: nat, bs: seq<Block>, num: nat,
                        r: Step)
    requires Steady(u, s.t, lo, tip) && Slice(u, c, start, bs) && |bs| == Min(num, |c| - start) && num >= 3
    requires start == StartHeight(u, s, tip)
    requires r.Done? && (exists k | start + |bs| - 1 <= k :: At(u, c, r.s, k))
    requires (r.more <==> |bs| == num) && (!r.more ==> At(u, c, r.s, start + |bs| - 1) && r.s.numBlocks == 1)
    ensures Progress(c, s, r)
  {
    hide UniqueSlots, Contiguous, Grounded, Bottomed, MainIs;
    Queries(u, s.t, lo, tip);
    if r.more {
      var k :| start + |bs| - 1 <= k && At(u, c, r.s, k);
      AtPhase(u, c, r.s, k);
    } else {
      AtPhase(u, c, r.s, start + |bs| - 1);
    }
  }

  /** Against one chain, a step leads from a state on it to a state on it. */
  lemma MovedOnChain(u: Tree, cfg: Config, t: Table, lo: nat, tip: Hash, c: seq<Block>, g: nat, t': Table, lo': nat,
                     tip': Hash)
    requires IsChain(u, c) && Steady(u, t, lo, tip) && Contains(u, c, lo, tip)
    requires Moved(u, cfg, t, lo, tip, c, g, Some(c), t', lo', tip') && Steady(u, t', lo', tip')
    ensures Contains(u, c, lo', tip')
    ensures Good(u, t, lo, tip) ==> Good(u, t', lo', tip')
  {
    hide UniqueSlots, Contiguous, Grounded, Bottomed, LoAfter;
    if k: nat, t1: Table, lo1: nat :|
      Extended(u, cfg, t, lo, tip, c, k, t1, lo1) && Jumped(u, t1, lo1, c, k, g, Some(c), t', lo', tip')
    {
      assert Fits(u, c[g]);
    } else if k: nat :| ExtendedTo(u, cfg, t, lo, tip, c, k, t', lo', tip') {
      assert Fits(u, c[k]);
      ChainAncestor(u, c, k, lo');
    }
  }

  lemma {:induction false} StepProgress(u: Tree, cfg: Config, origin: Option<Hash>, s: State, c: seq<Block>)
    requires SyncInv(u, cfg, origin, s) && OnChain(u, s.t, c) && IsChain(u, c)
    ensures Sound(u, s.t)
    ensures var r := UpdateStep(u, cfg, s, Some(c), Some(c), Some(c));
      && Progress(c, s, r) && SyncInv(u, cfg, origin, r.s) && OnChain(u, r.s.t, c)
      && (GoodOrEmpty(u, s.t) ==> GoodOrEmpty(u, r.s.t))
  {
    hide UpdateStep, Progress, Follows, UniqueSlots, Contiguous, Grounded, Bottomed, MainIs, Moved;
    if s.t != map[] {
      var lo, tip := OnChainPlaced(u, cfg, origin, s, c);
      RunningProgress(u, cfg, origin, s, lo, tip, c);
      var lo', tip' := RunningStep(u, cfg, origin, s, lo, tip, c, c, Some(c));
      var t' := UpdateStep(u, cfg, s, Some(c), Some(c), Some(c)).s.t;
      MovedOnChain(u, cfg, s.t, lo, tip, c, GenesisHeight(cfg, c), t', lo', tip');
      if GoodOrEmpty(u, s.t) {
        var lo1, tip1 :| Good(u, s.t, lo1, tip1);
        MainUnique(u, s.t, lo, tip, lo1, tip1);
      }
    } else {
      EmptyNext(u, cfg, origin, s);
      EmptyProgress(u, cfg, s, c);
      EmptyStep(u, cfg, origin, s, c, Some(c), Some(c));
      assert Fits(u, c[GenesisHeight(cfg, c)]);
    }
    assert UpdateStep(u, cfg, s, Some(c), Some(c), Some(c)).Done? by {
      ProgressIsDone(c, s, UpdateStep(u, cfg, s, Some(c), Some(c), Some(c)));
    }
  }

  lemma EmptyNext(u: Tree, cfg: Config, origin: Option<Hash>, s: State)
    requires SyncInv(u, cfg, origin, s) && s.t == map[]
    ensures s.next == -1
  {
  }

  lemma OnChainPlaced(u: Tree, cfg: Config, origin: Option<Hash>, s: State, c: seq<Block>) returns (lo: nat, tip: Hash)
    requires SyncInv(u, cfg, origin, s) && OnChain(u, s.t, c) && s.t != map[]
    ensures Placed(u, origin, s, lo, tip) && Contains(u, c, lo, tip)
  {
    hide UniqueSlots, Contiguous, Bottomed, Follows;
    lo, tip :| Placed(u, origin, s, lo, tip);
    var lo1, tip1 :| Steady(u, s.t, lo1, tip1) && Contains(u, c, lo1, tip1);
    MainUnique(u, s.t, lo, tip, lo1, tip1);
  }

  lemma ProgressIsDone(c: seq<Block>, s: State, r: Step)
    requires Progress(c, s, r)
    ensures r.Done?
  {
  }

  /** The update loop against a base chain that stands still and has main[L]: it terminates,
      with the local tip equal to the tip of the base chain. */
  ghost function RunToTip(u: Tree, cfg: Config, origin: Option<Hash>, s: State, c: seq<Block>): (r: State)
    requires SyncInv(u, cfg, origin, s) && OnChain(u, s.t, c) && IsChain(u, c)
    ensures SyncInv(u, cfg, origin, r) && OnChain(u, r.t, c) && (GoodOrEmpty(u, s.t) ==> GoodOrEmpty(u, r.t))
    ensures TipOf(r.t) == Some(Last(c).hash) && r.next == -1 && r.numBlocks == 1
    decreases Phase(c, s), Distance(c, s)
  {
    StepProgress(u, cfg, origin, s, c);
    var r := UpdateStep(u, cfg, s, Some(c), Some(c), Some(c));
    if r.more then RunToTip(u, cfg, origin, r.s, c) else r.s
  }

  lemma SyncedSteady(u: Tree, cfg: Config, origin: Option<Hash>, s: State, c: seq<Block>) returns (lo: nat)
    requires SyncInv(u, cfg, origin, s) && IsChain(u, c) && TipOf(s.t) == Some(Last(c).hash)
    ensures Placed(u, origin, s, lo, Last(c).hash) && LowestHeight(s.t) == lo
    ensures GoodOrEmpty(u, s.t) ==> Good(u, s.t, lo, Last(c).hash)
  {
    hide UniqueSlots, Contiguous, Grounded, Bottomed, MainIs, Follows;
    var tip;
    lo, tip :| Placed(u, origin, s, lo, tip);
    Queries(u, s.t, lo, tip);
    if GoodOrEmpty(u, s.t) {
      var lo1, tip1 :| Good(u, s.t, lo1, tip1);
      MainUnique(u, s.t, lo, tip, lo1, tip1);
    }
  }

  /** Once the tip is reached, the local main chain is the base chain from L on. */
  lemma SyncedMain(u: Tree, cfg: Config, origin: Option<Hash>, s: State, c: seq<Block>)
    requires SyncInv(u, cfg, origin, s) && OnChain(u, s.t, c) && IsChain(u, c)
    ensures var t := RunToTip(u, cfg, origin, s, c).t;
      LowestHeight(t) >= 0 && MainIsRange(t, c, LowestHeight(t), |c| - 1)
  {
    hide RunToTip, UniqueSlots, Contiguous, Grounded, Bottomed, MainIs, MainIsRange, TipHeight, LowestHeight, TipOf,
      Follows;
    var r := RunToTip(u, cfg, origin, s, c);
    var lo := SyncedSteady(u, cfg, origin, r, c);
    MainIsSegment(u, r.t, lo, c, |c| - 1);
  }
}
