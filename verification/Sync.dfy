/** The sync task as an object, proved against the state machine of SyncSpec for all
    answers of the base chain, also those that abort the process. */
module SyncTask {
  import opened BlockTree
  import opened ChainTable
  import opened Reorg
  import opened ChainstateDb
  import opened Notify
  import opened SyncSpec
  import opened SyncSafety
  import opened SyncRuns
  import opened Controller

  datatype Result = Finished(more: bool) | Exception | Died

  /** How a step of the object relates to a step of the state machine. */
  ghost predicate Matches(r: Result, s: State, step: Step) {
    match step
    case Done(s', more) => r == Finished(more) && s == s'
    case Threw(s') => r == Exception && s == s'
    case StepAborted => r == Died
  }

  /** The chainstate is empty or steady. */
  ghost predicate Usable(u: Tree, t: Table) {
    WellFormed(u) && (t == map[] || exists lo, tip :: Steady(u, t, lo, tip))
  }

  /** What holds in the middle of a step. */
  ghost predicate Loaded(u: Tree, t: Table) {
    WellFormed(u) && (t == map[] || exists lo, tip, top :: Chained(u, t, lo, tip, top))
  }

  lemma UsableLoaded(u: Tree, t: Table)
    requires Usable(u, t)
    ensures Loaded(u, t)
  {
    hide UniqueSlots, Contiguous, MainIs, Bottomed;
    if t != map[] {
      var lo, tip :| Steady(u, t, lo, tip);
      assert Chained(u, t, lo, tip, lo);
    }
  }

  lemma LoadedIndexed(u: Tree, t: Table)
    requires Loaded(u, t)
    ensures Indexed(u, t)
  {
    if t != map[] { hide UniqueSlots, Contiguous, MainIs, Bottomed; }
  }

  /** The table after an import, of any block and from any chain. */
  lemma ImportIndexed(u: Tree, t: Table, b: Block)
    requires Loaded(u, t) && Indexed(u, t) && Fits(u, b) && ImportTip(u, t, b).Imported?
    ensures Indexed(u, ImportTip(u, t, b).table)
  {
    hide UniqueSlots, Contiguous, MainIs, Bottomed, TipHeight, LowestHeight, MaxBranch, Relabel, ForkWalk, PruneTable;
    SoundIsStepped(u, t);
    if t == map[] {
      FirstImportGood(u, b);
    } else {
      var lo, tip, top :| Chained(u, t, lo, tip, top);
      Queries(u, t, lo, tip);
      var t1 := if b.hash in t then MarkTip(t, b.hash) else t[b.hash := Row(b, 0)];
      if b.hash in t {
        MarkTipContiguous(u, t, lo, tip, b.hash);
        MarkTipUnique(u, t, b.hash);
      } else {
        InsertTop(u, t, lo, tip, b);
      }
      if b.height > 0 { PruneIndexed(t1, b.height - 1); }
    }
  }

  lemma InsertTop(u: Tree, t: Table, lo: nat, tip: Hash, b: Block)
    requires Indexed(u, t) && MainIs(u, t, lo, tip) && b.hash !in t && u[tip].height < b.height
    ensures UniqueSlots(t[b.hash := Row(b, 0)]) && Contiguous(t[b.hash := Row(b, 0)])
  {
    var t1 := t[b.hash := Row(b, 0)];
    forall x | OnMain(t, x) ensures t[x].blk.height < b.height {
      assert Between(u, x, lo, tip) && Fits(u, t[x].blk);
    }
    forall x, y | x in t1 && y in t1 && t1[x].branch == t1[y].branch && t1[x].blk.height == t1[y].blk.height
      ensures x == y
    {
      assert x in t && t[x].branch == 0 ==> OnMain(t, x);
      assert y in t && t[y].branch == 0 ==> OnMain(t, y);
    }
    forall g, y | Below(t1, g, y) ensures ParentOnBranch(t1, y) {
      assert Below(t, g, y) && ParentOnBranch(t, y);
    }
  }

  lemma EmptyRejects(u: Tree, b: Block)
    requires WellFormed(u) && Fits(u, b)
    ensures Reorg.SetTip(u, map[], b) == Rejected && Indexed(u, map[])
  {
    assert TipOf(map[]).None?;
  }

  class Sync {
    const chain: Chainstate
    const cb: RunData
    var numBlocks: nat
    var nextStartHeight: int
    ghost var imports: seq<nat>

    /** As Sync::Start leaves it. */
    constructor (cb: RunData)
      ensures this.cb == cb && Wired() && numBlocks == 1 && nextStartHeight == -1 && imports == []
    {
      this.cb, this.chain := cb, cb.chain;
      numBlocks, nextStartHeight, imports := 1, -1, [];
    }

    ghost predicate Wired() { cb.chain == chain }

    ghost function Current(): State
      reads this, chain, cb.zmq
    {
      State(chain.blocks, numBlocks, nextStartHeight, Untagged(cb.zmq.out), imports)
    }

    /** False if --xayax_block_range is invalid. */
    method IncreaseNumBlocks() returns (ok: bool)
      modifies this`numBlocks
      ensures ok == (cb.blockRange >= 1)
      ensures numBlocks == if ok then Doubled(cb.Configuration(), old(numBlocks)) else old(numBlocks)
    {
      ok := cb.blockRange >= 1;
      if ok { numBlocks := Min(cb.blockRange, U32(numBlocks * 2)); }
    }

    method ImportNewTip(height: nat, c: Reply, throws: bool) returns (r: Result)
      requires Wired() && Loaded(chain.tree, chain.blocks) && Sound(chain.tree, chain.blocks)
      requires Authenticated(chain.tree, c)
      modifies this`imports, chain, cb.zmq
      ensures Matches(r, Current(),
        SyncSpec.ImportNewTip(chain.tree, cb.Configuration(), old(Current()), height, c, throws))
    {
      hide Reorg.ImportTip, SyncSpec.TipUpdatedFrom, Untagged, Loaded, Indexed, Sound;
      if c.None? { return Exception; }
      RangeSlice(chain.tree, c.value, height, 1);
      var blocks := Range(c.value, height, 1);
      if blocks == [] { return Finished(false); }
      assert blocks == [blocks[0]] && Fits(chain.tree, blocks[0]);
      LoadedIndexed(chain.tree, chain.blocks);
      if Reorg.ImportTip(chain.tree, chain.blocks, blocks[0]).Imported? {
        ImportIndexed(chain.tree, chain.blocks, blocks[0]);
      }
      ghost var out := cb.zmq.out;
      imports := imports + [|Untagged(out)|];
      var ok := chain.ImportTip(blocks[0]);
      if !ok { return Died; }
      var called := cb.TipUpdatedFrom(NoHash, blocks, c.value, throws);
      if called == CallbackDied { return Died; }
      ghost var msgs := SyncSpec.TipUpdatedFrom(chain.tree, cb.Configuration(),
        Reorg.ImportTip(chain.tree, old(chain.blocks), blocks[0]).table, NoHash, blocks, c.value, throws).msgs;
      UntaggedMore(out, None, msgs);
      return if called == CallbackDone then Finished(true) else Exception;
    }

    /** Attaches a range of blocks one by one. */
    method AttachBlocks(bs: seq<Block>, ghost c: seq<Block>, ghost start: nat) returns (r: SetTipOutcome)
      requires Usable(chain.tree, chain.blocks) && Sound(chain.tree, chain.blocks)
      requires bs != [] ==> Slice(chain.tree, c, start, bs)
      modifies chain
      ensures match SyncSpec.AttachBlocks(chain.tree, old(chain.blocks), bs)
        case NoFit => r == NotAttached && chain.blocks == old(chain.blocks)
        case AttachedBlocks(t, oldTip) => r == AttachedFrom(oldTip) && chain.blocks == t
        case AttemptAborted => r == SetTipFailed
      ensures r.AttachedFrom? ==>
        bs != [] && exists lo, top :: Chained(chain.tree, chain.blocks, lo, Last(bs).hash, top)
    {
      hide UniqueSlots, Contiguous, Grounded, Bottomed, MainIs, Reorg.SetTip, Sound;
      if bs == [] { return NotAttached; }
      assert bs[0] in bs && Fits(chain.tree, bs[0]);
      ghost var lo: nat, tip := 0, NoHash;
      if chain.blocks == map[] {
        EmptyRejects(chain.tree, bs[0]);
      } else {
        lo, tip :| Steady(chain.tree, chain.blocks, lo, tip);
        SetTipAny(chain.tree, chain.blocks, lo, tip, bs[0]);
      }
      ghost var low := if chain.blocks == map[] then 0 else LowAfter(chain.blocks, lo, bs[0]);
      r := chain.SetTip(bs[0]);
      if !r.AttachedFrom? { return; }
      ghost var t1 := chain.blocks;
      for i := 1 to |bs|
        invariant r.AttachedFrom? && low >= 0 && Chained(chain.tree, chain.blocks, low, bs[i - 1].hash, lo)
        invariant AttachRest(chain.tree, chain.blocks, bs, i) == AttachRest(chain.tree, t1, bs, 1)
      {
        AttachOne(chain.tree, chain.blocks, low, lo, c, start, bs, i);
        var prev := chain.SetTip(bs[i]);
        if prev != AttachedFrom(bs[i].parent) || prev != AttachedFrom(bs[i - 1].hash) { return SetTipFailed; }
      }
    }

    /** Goes further back after a failed attempt from startHeight. */
    method SearchBack(startHeight: int, num: nat) returns (r: Result)
      requires Wired()
      modifies this
      ensures Matches(r, Current(), SyncSpec.SearchBack(cb.Configuration(), old(Current()), startHeight, num))
    {
      hide LowestHeight;
      var ok := IncreaseNumBlocks();
      if !ok { return Died; }
      var lowest := chain.GetMainchainHeight(false);
      nextStartHeight := Max(lowest, startHeight - num);
      if nextStartHeight >= startHeight { return Died; }
      return Finished(true);
    }

    /** Notifies about attached blocks; t is the table before they were attached. */
    method Extend(bs: seq<Block>, num: nat, oldTip: Hash, oldForkBranch: seq<Block>, c: seq<Block>, throws: bool,
                  ghost t: Table)
      returns (r: Result)
      requires Wired() && bs != [] && Sound(chain.tree, t) && Indexed(chain.tree, chain.blocks)
      requires AttachList(chain.tree, t, bs) == Reversed(oldForkBranch) + bs
      modifies this, chain, cb.zmq
      ensures Matches(r, Current(),
        SyncSpec.Extend(chain.tree, cb.Configuration(), old(Current().(t := t)), old(chain.blocks), oldTip, bs, num, c,
                        throws))
    {
      hide SyncSpec.TipUpdatedFrom, Untagged, Tagged, AttachList, UniqueSlots, Contiguous, Sound, Reversed;
      nextStartHeight := -1;
      ghost var out := cb.zmq.out;
      if oldTip != Last(bs).hash {
        var called := cb.TipUpdatedFrom(oldTip, Reversed(oldForkBranch) + bs, c, throws);
        if called == CallbackDied { return Died; }
        ghost var msgs := SyncSpec.TipUpdatedFrom(chain.tree, cb.Configuration(), old(chain.blocks), oldTip,
          AttachList(chain.tree, t, bs), c, throws).msgs;
        UntaggedMore(out, None, msgs);
        if called == CallbackException { return Exception; }
      }
      if |bs| < num {
        numBlocks := 1;
        return Finished(false);
      }
      return Finished(true);
    }

    /** Jumps forward by an import if far behind, else asks for more next time. */
    method Continue(height: nat, genesis: nat, c2: Reply, throws: bool) returns (r: Result)
      requires Wired() && Loaded(chain.tree, chain.blocks) && Sound(chain.tree, chain.blocks)
      requires Authenticated(chain.tree, c2)
      modifies this, chain, cb.zmq
      ensures Matches(r, Current(),
        SyncSpec.Continue(chain.tree, cb.Configuration(), old(Current()), height, genesis, c2, throws))
    {
      hide SyncSpec.ImportNewTip, Untagged, Loaded, Sound;
      if height < genesis {
        ImportFalse(chain.tree, cb.Configuration(), Current(), genesis, c2, throws);
        r := ImportNewTip(genesis, c2, throws);
        if r != Finished(false) { return; }
      }
      var ok := IncreaseNumBlocks();
      return if ok then Finished(true) else Died;
    }

    /** Asks for blocks from startHeight on, and does what the first of them decides. */
    method Attempt(startHeight: nat, genesisHeight: nat, c1: seq<Block>, c2: Reply, f: Faults, ghost c0: seq<Block>)
      returns (r: Result)
      requires Wired() && Usable(chain.tree, chain.blocks) && Sound(chain.tree, chain.blocks)
      requires IsChain(chain.tree, c0) && IsChain(chain.tree, c1) && Authenticated(chain.tree, c2)
      requires genesisHeight == GenesisHeight(cb.Configuration(), c0)
      modifies this, chain, cb.zmq
      ensures Matches(r, Current(),
        AttemptStep(chain.tree, cb.Configuration(), old(Current()), startHeight, c0, c1, c2, f))
    {
      hide SyncSpec.AttachBlocks, SyncSpec.Extend, SyncSpec.Continue, SyncSpec.SearchBack, Untagged, Loaded, Usable,
        Sound,
        Range, AttachList, Slice, Chained, Indexed, ForkWalk, Reversed, IsChain, GenesisHeight, Stepped;
      UsableLoaded(chain.tree, chain.blocks);
      LoadedIndexed(chain.tree, chain.blocks);
      ghost var s := Current();
      var num := Max(numBlocks, 3);
      RangeSlice(chain.tree, c1, startHeight, num);
      var blocks := Range(c1, startHeight, num);
      SliceFits(chain.tree, c1, startHeight, num);
      var oldForkBranch := [];
      if blocks != [] {
        var known;
        known, oldForkBranch := chain.GetForkBranch(blocks[0].parent);
        ListValue(chain.tree, chain.blocks, blocks, oldForkBranch);
      }
      var attached := AttachBlocks(blocks, c1, startHeight);
      if attached.SetTipFailed? { return Died; }
      if attached.NotAttached? {
        r := SearchBack(startHeight, num);
        return;
      }
      AfterAttach(chain.tree, cb.Configuration(), s, chain.blocks, attached.oldTip, blocks, num, c1, f.attach);
      r := Extend(blocks, num, attached.oldTip, oldForkBranch, c1, f.attach, s.t);
      if r != Finished(true) { return; }
      r := Continue(Last(blocks).height, genesisHeight, c2, f.jump);
    }

    /** One update step, against any snapshots c0, c1 and c2 of the base chain.  If the
        range comes from a chain that contains main[L], the process survives it. */
    method UpdateStep(c0: Reply, c1: Reply, c2: Reply, f: Faults, ghost origin: Option<Hash>) returns (r: Result)
      requires Wired() && Usable(chain.tree, chain.blocks) && Sound(chain.tree, chain.blocks)
      requires Authenticated(chain.tree, c0) && Authenticated(chain.tree, c1) && Authenticated(chain.tree, c2)
      modifies this, chain, cb.zmq
      ensures Matches(r, Current(),
        SyncSpec.UpdateStep(chain.tree, cb.Configuration(), old(Current()), c0, c1, c2, f))
      ensures old(SyncInv(chain.tree, cb.Configuration(), origin, Current()) && Holds(chain.tree, chain.blocks, c1)) ==>
        r != Died && SyncInv(chain.tree, cb.Configuration(), origin, Current())
    {
      hide SyncInv, SyncSpec.ImportNewTip, Holds, Untagged, Loaded, Usable, Sound, TipHeight, AttemptStep,
        SyncSpec.AttachBlocks, Advance, SyncSpec.SearchBack;
      if SyncInv(chain.tree, cb.Configuration(), origin, Current()) && Holds(chain.tree, chain.blocks, c1) {
        StepSafe(chain.tree, cb.Configuration(), origin, Current(), c0, c1, c2, f);
      }
      UsableLoaded(chain.tree, chain.blocks);
      if c0.None? { return Exception; }
      var genesisHeight := GenesisHeight(cb.Configuration(), c0.value);
      var startHeight := nextStartHeight;
      if nextStartHeight == -1 {
        var tipHeight := chain.GetMainchainHeight(true);
        if tipHeight == -1 {
          r := ImportNewTip(genesisHeight, c2, f.jump);
          return;
        }
        startHeight := tipHeight;
      }
      if startHeight < 0 { return Died; }
      if c1.None? { return Exception; }
      StepIsAttempt(chain.tree, cb.Configuration(), Current(), startHeight, c0.value, c1.value, c2, f);
      r := Attempt(startHeight, genesisHeight, c1.value, c2, f, c0.value);
    }
  }

  lemma StepIsAttempt(u: Tree, cfg: Config, s: State, start: nat, c0: seq<Block>, c1: seq<Block>, c2: Reply, f: Faults)
    requires Sound(u, s.t) && IsChain(u, c0) && IsChain(u, c1) && Authenticated(u, c2)
    requires start == if s.next == -1 then TipHeight(s.t) else s.next
    ensures SyncSpec.UpdateStep(u, cfg, s, Some(c0), Some(c1), c2, f) == AttemptStep(u, cfg, s, start, c0, c1, c2, f)
  {
    hide SyncSpec.AttachBlocks, Advance, SyncSpec.SearchBack, TipHeight;
  }

  lemma SliceFits(u: Tree, c: seq<Block>, start: nat, num: nat)
    requires IsChain(u, c)
    ensures forall b | b in Range(c, start, num) :: Fits(u, b)
  {
  }

  lemma ImportFalse(u: Tree, cfg: Config, s: State, height: nat, c: Reply, throws: bool)
    requires Sound(u, s.t) && Authenticated(u, c)
    ensures var r := SyncSpec.ImportNewTip(u, cfg, s, height, c, throws); r.Done? && !r.more ==> r.s == s
  {
  }

  lemma ListValue(u: Tree, t: Table, bs: seq<Block>, w: seq<Block>)
    requires Sound(u, t) && Stepped(t) && bs != [] && w == ForkWalk(t, bs[0].parent)
    ensures AttachList(u, t, bs) == Reversed(w) + bs
  {
  }

  /** The table after the blocks are attached, and after the callback. */
  lemma AfterAttach(u: Tree, cfg: Config, s: State, t: Table, oldTip: Hash, bs: seq<Block>, num: nat, c: seq<Block>,
                    throws: bool)
    requires bs != [] && Sound(u, s.t) && exists lo, top :: Chained(u, t, lo, Last(bs).hash, top)
    ensures Indexed(u, t)
    ensures var e := SyncSpec.Extend(u, cfg, s, t, oldTip, bs, num, c, throws);
      e.Done? ==> Loaded(u, e.s.t) && Sound(u, e.s.t)
  {
    hide UniqueSlots, Contiguous, MainIs, Bottomed, PushZmqBlocks, AttachList, Pruned, TipHeight;
    var lo, top :| Chained(u, t, lo, Last(bs).hash, top);
    TipStored(u, t, lo, Last(bs).hash);
    Queries(u, t, lo, Last(bs).hash);
    var lo', top' := PrunedChained(u, cfg, t, lo, Last(bs).hash, top);
  }
}
