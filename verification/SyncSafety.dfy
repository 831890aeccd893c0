/** The parts of an update step: attaching a range of blocks, the callback with its
    messages and its pruning, and imports.  As long as the answering chain contains
    main[L], no CHECK fails, and the messages lead from the old tip to the new one. */
module SyncSafety {
  import opened BlockTree
  import opened ChainTable
  import opened Reorg
  import opened ChainRuns
  import opened Notify
  import opened SyncSpec

  // ----- Attaching a range of blocks

  ghost predicate Contains(u: Tree, c: seq<Block>, lo: nat, tip: Hash)
    requires WellFormed(u) && tip in u && lo <= u[tip].height
  {
    lo < |c| && c[lo].hash == Lowest(u, lo, tip)
  }

  lemma OnChainDescends(u: Tree, c: seq<Block>, lo: nat, tip: Hash, k: nat)
    requires WellFormed(u) && IsChain(u, c) && tip in u && lo <= u[tip].height && Contains(u, c, lo, tip)
    requires lo <= k < |c|
    ensures Descends(u, c[k].hash, Lowest(u, lo, tip)) && Fits(u, c[k])
  {
    ChainAncestor(u, c, k, lo);
  }

  /** Nothing is lost but bs may be new. */
  ghost predicate Grown(t: Table, t': Table, bs: seq<Block>) {
    t.Keys <= t'.Keys <= t.Keys + Hashes(bs) && forall x | x in t :: t'[x].blk == t[x].blk
  }

  lemma TipStored(u: Tree, t: Table, lo: nat, tip: Hash)
    requires WellFormed(u) && MainIs(u, t, lo, tip)
    ensures tip in t && tip in u && OnMain(t, tip) && lo <= u[tip].height
    ensures OnMain(t, Lowest(u, lo, tip))
  {
    assert Between(u, Lowest(u, lo, tip), lo, tip);
  }

  /** The blocks bs are the blocks of chain c from height start on. */
  ghost predicate Slice(u: Tree, c: seq<Block>, start: nat, bs: seq<Block>) {
    && IsChain(u, c) && bs != [] && start + |bs| <= |c| && bs == c[start..start + |bs|]
    && bs[0] == c[start] && Last(bs) == c[start + |bs| - 1]
    && (forall b | b in bs :: Fits(u, b))
  }

  lemma RangeSlice(u: Tree, c: seq<Block>, start: nat, num: nat)
    requires IsChain(u, c)
    ensures var bs := Range(c, start, num);
      |bs| == (if start >= |c| then 0 else Min(num, |c| - start)) && (bs != [] ==> Slice(u, c, start, bs))
  {
  }

  /** The next block of a range extends the tip. */
  lemma AttachOne(u: Tree, t: Table, lo: nat, top: nat, c: seq<Block>, start: nat, bs: seq<Block>, i: nat)
    requires Slice(u, c, start, bs) && 1 <= i < |bs| && Chained(u, t, lo, bs[i - 1].hash, top)
    ensures Fits(u, bs[i])
    ensures var r := SetTip(u, t, bs[i]);
      && r.Attached? && r.oldTip == bs[i].parent && r.oldTip == bs[i - 1].hash
      && Chained(u, r.table, lo, bs[i].hash, top) && Grown(t, r.table, bs)
      && (Good(u, t, lo, bs[i - 1].hash) ==> Good(u, r.table, lo, bs[i].hash))
  {
    hide UniqueSlots, Contiguous, Grounded, Bottomed, MainIs, SetTip, ForkWalk;
    var tip := bs[i - 1].hash;
    var b := bs[i];
    assert b == c[start + i] && bs[i - 1] == c[start + i - 1] && b.parent == tip && b in bs;
    assert Fits(u, bs[i - 1]) && Fits(u, b);
    SoundIsStepped(u, t);
    TipStored(u, t, lo, tip);
    assert OnMain(t, ForkEnd(t, tip)) && ForkEnd(t, tip) == tip;
    SetTipChained(u, t, lo, tip, top, b);
    SetTipKeepsBlocks(u, t, b);
    if Good(u, t, lo, tip) {
      ChainAncestor(u, c, start + i, start + i - 1);
      DescendsTrans(u, b.hash, tip, Lowest(u, lo, tip));
      SetTipGood(u, t, lo, tip, b);
    }
  }

  /** All further blocks of a range extend the tip one by one. */
  lemma {:induction false} AttachRestGood(u: Tree, t: Table, lo: nat, top: nat, c: seq<Block>, start: nat,
                                          bs: seq<Block>, i: nat)
    requires Slice(u, c, start, bs) && 1 <= i <= |bs| && Chained(u, t, lo, bs[i - 1].hash, top)
    ensures var r := AttachRest(u, t, bs, i);
      && r.Some? && Chained(u, r.value, lo, Last(bs).hash, top) && Grown(t, r.value, bs)
      && (Good(u, t, lo, bs[i - 1].hash) ==> Good(u, r.value, lo, Last(bs).hash))
    decreases |bs| - i
  {
    hide Chained, Good, SetTip;
    assert Sound(u, t) by { ChainedSound(u, t, lo, bs[i - 1].hash, top); }
    if i < |bs| {
      AttachOne(u, t, lo, top, c, start, bs, i);
      AttachRestGood(u, SetTip(u, t, bs[i]).table, lo, top, c, start, bs, i + 1);
    }
  }

  lemma ChainedSound(u: Tree, t: Table, lo: nat, tip: Hash, top: nat)
    requires Chained(u, t, lo, tip, top)
    ensures Sound(u, t)
  {
  }

  /** An attempt with a range of any chain never aborts.  It fits exactly if its first
      block or the parent of that is stored, and the tip then is its last block. */
  lemma AttachBlocksAny(u: Tree, t: Table, lo: nat, tip: Hash, c: seq<Block>, start: nat, bs: seq<Block>)
    requires Steady(u, t, lo, tip) && Slice(u, c, start, bs)
    ensures Stepped(t)
    ensures var r := AttachBlocks(u, t, bs);
      && !r.AttemptAborted?
      && (r.NoFit? <==> bs[0].hash !in t && bs[0].parent !in t)
      && (r.AttachedBlocks? ==>
            && r.oldTip == tip && Grown(t, r.t, bs) && 0 <= LowAfter(t, lo, bs[0]) <= lo
            && Chained(u, r.t, LowAfter(t, lo, bs[0]), Last(bs).hash, lo))
  {
    hide UniqueSlots, Contiguous, Bottomed, MainIs, SetTip, AttachRest, LowAfter;
    assert bs[0] in bs;
    SetTipAny(u, t, lo, tip, bs[0]);
    var r := SetTip(u, t, bs[0]);
    if r.Attached? {
      SetTipKeepsBlocks(u, t, bs[0]);
      AttachRestGood(u, r.table, LowAfter(t, lo, bs[0]), lo, c, start, bs, 1);
    }
  }

  /** With a chain that contains main[L], the main chain keeps its lower end, and at height
      L the range always fits. */
  lemma AttachBlocksGood(u: Tree, t: Table, lo: nat, tip: Hash, c: seq<Block>, start: nat, bs: seq<Block>)
    requires Steady(u, t, lo, tip) && Slice(u, c, start, bs) && Contains(u, c, lo, tip) && lo <= start
    ensures var r := AttachBlocks(u, t, bs);
      && !r.AttemptAborted?
      && (r.NoFit? <==> bs[0].hash !in t && bs[0].parent !in t)
      && (r.NoFit? ==> start > lo)
      && (r.AttachedBlocks? ==> r.oldTip == tip && t.Keys <= r.t.Keys && Steady(u, r.t, lo, Last(bs).hash))
      && (r.AttachedBlocks? && Good(u, t, lo, tip) ==> Good(u, r.t, lo, Last(bs).hash))
  {
    hide UniqueSlots, Contiguous, Grounded, Bottomed, MainIs, SetTip, AttachRest;
    TipStored(u, t, lo, tip);
    OnChainDescends(u, c, lo, tip, start);
    SetTipGood(u, t, lo, tip, bs[0]);
    var r := SetTip(u, t, bs[0]);
    if r.Attached? {
      SetTipKeepsBlocks(u, t, bs[0]);
      AttachRestGood(u, r.table, lo, lo, c, start, bs, 1);
    }
  }

  /** The main chain consists of the blocks lo..k of c. */
  ghost predicate MainIsRange(t: Table, c: seq<Block>, lo: nat, k: nat) {
    lo <= k < |c| && forall x :: OnMain(t, x) <==> exists i | lo <= i <= k :: c[i].hash == x
  }

  /** After an attempt the main chain is the segment of the base chain from L on. */
  lemma MainIsSegment(u: Tree, t: Table, lo: nat, c: seq<Block>, k: nat)
    requires IsChain(u, c) && k < |c| && Sound(u, t) && MainIs(u, t, lo, c[k].hash)
    ensures MainIsRange(t, c, lo, k)
  {
    assert Fits(u, c[k]);
    forall x ensures OnMain(t, x) <==> exists i | lo <= i <= k :: c[i].hash == x {
      assert OnMain(t, x) <==> Between(u, x, lo, c[k].hash);
      if Between(u, x, lo, c[k].hash) {
        ChainAncestor(u, c, k, u[x].height);
        assert c[u[x].height].hash == x;
      }
      if i :| lo <= i <= k && c[i].hash == x {
        ChainAncestor(u, c, k, i);
        assert Fits(u, c[i]);
      }
    }
  }

  // ----- The list of attaches reaches back to the fork point

  /** The parent of a block that fits is stored, unless the block is main[L]. */
  lemma ParentStored(u: Tree, t: Table, lo: nat, tip: Hash, b: Block)
    requires Steady(u, t, lo, tip) && Fits(u, b) && Descends(u, b.hash, Lowest(u, lo, tip))
    requires b.hash in t || b.parent in t
    requires b.height > lo
    ensures b.parent in t && Descends(u, b.parent, Lowest(u, lo, tip)) && u[b.parent].height + 1 == b.height
  {
    var low := Lowest(u, lo, tip);
    DescendsParent(u, b.hash, low);
    if b.hash in t {
      assert Fits(u, t[b.hash].blk);
      if !OffMain(t, b.hash) { MainParent(u, t, lo, tip, b.hash); }
    }
  }

  /** A main chain and a later one over the same L: their common blocks are not
      above the fork point of the old tip. */
  lemma CommonBelowFork(u: Tree, t: Table, lo: nat, tip: Hash, t': Table, tip': Hash, x: Hash)
    requires Steady(u, t, lo, tip) && Steady(u, t', lo, tip') && Stepped(t') && tip in t'
    requires Descends(u, tip', Lowest(u, lo, tip)) && OnMain(t, x) && OnMain(t', x)
    ensures x in u && ForkEnd(t', tip) in u && u[x].height <= u[ForkEnd(t', tip)].height
  {
    assert Between(u, x, lo, tip);
    ForkEndOnMain(u, t', lo, tip', tip);
    WalkMembers(u, t', tip, x);
  }

  lemma ListStart(u: Tree, t: Table, lo: nat, tip: Hash, b: Block, t': Table, tip': Hash)
    requires Steady(u, t, lo, tip) && Steady(u, t', lo, tip') && Stepped(t) && Stepped(t') && tip in t'
    requires Fits(u, b) && Descends(u, b.hash, Lowest(u, lo, tip)) && Descends(u, tip', b.hash)
    requires b.hash in t || b.parent in t
    ensures |ForkWalk(t, b.parent)| <= b.height
    ensures ForkEnd(t', tip) in u && b.height - |ForkWalk(t, b.parent)| <= u[ForkEnd(t', tip)].height + 1
  {
    var low := Lowest(u, lo, tip);
    DescendsTrans(u, tip', b.hash, low);
    ForkEndOnMain(u, t', lo, tip', tip);
    var q := b.parent;
    if b.height > lo {
      ParentStored(u, t, lo, tip, b);
      ForkEndOnMain(u, t, lo, tip, q);
      var e := ForkEnd(t, q);
      ParentDescends(u, b.hash);
      DescendsTrans(u, b.hash, q, e);
      DescendsTrans(u, tip', b.hash, e);
      assert Between(u, e, lo, tip');
      CommonBelowFork(u, t, lo, tip, t', tip', e);
    } else if OffMain(t, q) {
      assert Fits(u, t[q].blk) && Rooted(u, b.hash);
      WalkIsAncestry(u, t, q);
    }
  }

  lemma WalkPathBlocks(u: Tree, t: Table, h: Hash, i: nat)
    requires Sound(u, t) && Stepped(t) && OffMain(t, h) && i < |ForkWalk(t, h)|
    ensures var b := Reversed(ForkWalk(t, h))[i];
      Fits(u, b) && b.height == u[h].height + 1 - |ForkWalk(t, h)| + i && Descends(u, h, b.hash)
  {
    WalkIsAncestry(u, t, h);
    var w := ForkWalk(t, h);
    assert Fits(u, t[w[|w| - 1 - i].hash].blk);
  }

  lemma WalkPathLinks(u: Tree, t: Table, h: Hash, i: nat)
    requires Sound(u, t) && Stepped(t) && OffMain(t, h) && i + 1 < |ForkWalk(t, h)|
    ensures Reversed(ForkWalk(t, h))[i + 1].parent == Reversed(ForkWalk(t, h))[i].hash
  {
    WalkIsAncestry(u, t, h);
    var w := ForkWalk(t, h);
    assert w[|w| - 1 - (i + 1)].parent == w[|w| - 1 - i].hash;
  }

  lemma WalkPath(u: Tree, t: Table, h: Hash)
    requires Sound(u, t) && Stepped(t) && OffMain(t, h)
    ensures |ForkWalk(t, h)| <= u[h].height + 1
    ensures PathTo(u, Reversed(ForkWalk(t, h)), u[h].height + 1 - |ForkWalk(t, h)|, h)
  {
    WalkIsAncestry(u, t, h);
    var l := Reversed(ForkWalk(t, h));
    assert Last(l) == ForkWalk(t, h)[0];
    hide ForkWalk, Reversed, Descends;
    forall i | 0 <= i < |l|
      ensures Fits(u, l[i]) && l[i].height == u[h].height + 1 - |ForkWalk(t, h)| + i && Descends(u, h, l[i].hash)
    {
      WalkPathBlocks(u, t, h, i);
    }
    forall i, j | 0 <= i && j == i + 1 < |l| ensures l[j].parent == l[i].hash {
      WalkPathLinks(u, t, h, i);
    }
  }

  lemma ChainPath(u: Tree, c: seq<Block>, start: nat, bs: seq<Block>)
    requires WellFormed(u) && IsChain(u, c) && bs != [] && start + |bs| <= |c| && bs == c[start..start + |bs|]
    ensures PathTo(u, bs, start, Last(bs).hash)
  {
    forall i | 0 <= i < |bs|
      ensures Fits(u, bs[i]) && bs[i].height == start + i && Descends(u, Last(bs).hash, bs[i].hash)
    {
      assert bs[i] == c[start + i];
      ChainAncestor(u, c, start + |bs| - 1, start + i);
    }
    forall i, j | 0 <= i && j == i + 1 < |bs| ensures bs[j].parent == bs[i].hash {
      assert bs[i] == c[start + i] && bs[j] == c[start + j];
    }
  }

  lemma JoinPath(u: Tree, a: seq<Block>, s: nat, mid: Hash, b: seq<Block>, tip: Hash)
    requires WellFormed(u) && PathTo(u, a, s, mid) && PathTo(u, b, s + |a|, tip) && b[0].parent == mid
    ensures PathTo(u, a + b, s, tip)
  {
    var l := a + b;
    assert Fits(u, b[0]) && Fits(u, Last(a));
    ParentDescends(u, b[0].hash);
    forall i | 0 <= i < |l| ensures Fits(u, l[i]) && l[i].height == s + i && Descends(u, tip, l[i].hash) {
      if i < |a| {
        DescendsTrans(u, b[0].hash, mid, a[i].hash);
        DescendsTrans(u, tip, b[0].hash, a[i].hash);
      }
    }
    forall i, j | 0 <= i && j == i + 1 < |l| ensures l[j].parent == l[i].hash {
      if i >= |a| { assert b[j - |a|].parent == b[i - |a|].hash; }
    }
  }

  /** The list handed to the callback is one linked path up to the new tip. */
  lemma ListIsPath(u: Tree, t: Table, c: seq<Block>, start: nat, bs: seq<Block>)
    requires Sound(u, t) && Stepped(t) && IsChain(u, c) && bs != []
    requires start + |bs| <= |c| && bs == c[start..start + |bs|] && |ForkWalk(t, bs[0].parent)| <= start
    ensures PathTo(u, AttachList(u, t, bs), start - |ForkWalk(t, bs[0].parent)|, Last(bs).hash)
  {
    hide PathTo;
    ChainPath(u, c, start, bs);
    var q := bs[0].parent;
    assert bs[0] == c[start] && Fits(u, c[start]);
    if OffMain(t, q) {
      assert Fits(u, t[q].blk) && Rooted(u, bs[0].hash);
      WalkPath(u, t, q);
      JoinPath(u, Reversed(ForkWalk(t, q)), start - |ForkWalk(t, q)|, q, bs, Last(bs).hash);
    } else {
      assert AttachList(u, t, bs) == bs;
    }
  }

  // ----- The callback

  /** The lowest height after the pruning of the callback. */
  function LoAfter(cfg: Config, lo: nat, h: nat): nat {
    if h > cfg.depth + 1 then Max(lo, h - cfg.depth) else lo
  }

  lemma PrunedChained(u: Tree, cfg: Config, t: Table, lo: nat, tip: Hash, top: nat) returns (lo': nat, top': nat)
    requires Chained(u, t, lo, tip, top)
    ensures Chained(u, Pruned(cfg, t, u[tip].height), lo', tip, top')
    ensures top <= u[tip].height ==> top' <= u[tip].height
  {
    hide UniqueSlots, Contiguous, Bottomed, MainIs, PruneTable;
    TipStored(u, t, lo, tip);
    lo', top' := lo, top;
    if u[tip].height > cfg.depth + 1 {
      PruneChained(u, t, lo, tip, top, u[tip].height - cfg.depth - 1);
      lo', top' := Max(lo, u[tip].height - cfg.depth), Max(top, u[tip].height - cfg.depth);
    }
  }

  lemma PrunedGood(u: Tree, cfg: Config, t: Table, lo: nat, tip: Hash)
    requires Steady(u, t, lo, tip)
    ensures tip in u
    ensures Steady(u, Pruned(cfg, t, u[tip].height), LoAfter(cfg, lo, u[tip].height), tip)
    ensures Good(u, t, lo, tip) ==> Good(u, Pruned(cfg, t, u[tip].height), LoAfter(cfg, lo, u[tip].height), tip)
  {
    TipStored(u, t, lo, tip);
    hide UniqueSlots, Contiguous, Grounded, Bottomed, MainIs, PruneTable;
    if u[tip].height > cfg.depth + 1 {
      PruneGood(u, t, lo, tip, u[tip].height - cfg.depth - 1);
    }
  }

  lemma CallbackGood(u: Tree, cfg: Config, t: Table, lo: nat, tip: Hash, oldTip: Hash, attaches: seq<Block>,
                     s: nat, c: seq<Block>)
    requires Steady(u, t, lo, tip) && Stepped(t)
    requires oldTip in t && oldTip != NoHash && oldTip != tip && Descends(u, oldTip, Lowest(u, lo, tip))
    requires PathTo(u, attaches, s, tip) && s <= u[ForkEndIn(u, t, lo, tip, oldTip)].height + 1
    ensures var r := TipUpdatedFrom(u, cfg, t, oldTip, attaches, c);
      && r.Notified? && TipMessages(r.msgs, oldTip, tip)
      && Steady(u, r.t, LoAfter(cfg, lo, u[tip].height), tip)
      && (Good(u, t, lo, tip) ==> Good(u, r.t, LoAfter(cfg, lo, u[tip].height), tip))
      && TipUpdatedFrom(u, cfg, t, oldTip, attaches, c, true) == CallbackThrew(r.msgs)
  {
    hide UniqueSlots, Contiguous, Grounded, Bottomed, MainIs, PushZmqBlocks, PathTo, Pruned, TipMessages, Sane;
    PathNonEmpty(u, attaches, s, tip);
    TipPushLegal(u, t, lo, tip, oldTip, attaches, s, c);
    SaneIff(u, t, lo, tip, lo);
    Queries(u, t, lo, tip);
    PrunedGood(u, cfg, t, lo, tip);
  }

  lemma ImportCallback(u: Tree, cfg: Config, t: Table, b: Block, c: seq<Block>)
    requires Steady(u, t, b.height, b.hash) && Fits(u, b)
    ensures var r := TipUpdatedFrom(u, cfg, t, NoHash, [b], c);
      && r.Notified? && r.msgs == [Attach(b)] && Steady(u, r.t, b.height, b.hash)
      && (Good(u, t, b.height, b.hash) ==> Good(u, r.t, b.height, b.hash))
      && TipUpdatedFrom(u, cfg, t, NoHash, [b], c, true) == CallbackThrew(r.msgs)
  {
    hide UniqueSlots, Contiguous, Grounded, Bottomed, MainIs, Pruned, Sane;
    SaneIff(u, t, b.height, b.hash, b.height);
    Queries(u, t, b.height, b.hash);
    PrunedGood(u, cfg, t, b.height, b.hash);
    assert Attaches([b]) == [Attach(b)];
  }

  // ----- Imports

  /** What an import does to the state. */
  ghost predicate ImportedAt(u: Tree, s: State, s': State, b: Block) {
    && s' == s.(t := s'.t, sent := s.sent + [Attach(b)], imports := s.imports + [|s.sent|])
    && Steady(u, s'.t, b.height, b.hash)
  }

  /** A jump forward succeeds with any chain that is long enough, whether or not it has the
      local tip, and also if the callback throws. */
  lemma {:induction false} ImportStep(u: Tree, cfg: Config, s: State, lo: nat, tip: Hash, top: nat, height: nat,
                                      c: seq<Block>, throws: bool := false)
    requires Chained(u, s.t, lo, tip, top) && top <= u[tip].height < height && IsChain(u, c)
    ensures var r := ImportNewTip(u, cfg, s, height, Some(c), throws);
      if height >= |c| then r == Done(s, false)
      else
        && !r.StepAborted? && (r.Threw? <==> throws) && (r.Done? ==> r.more) && ImportedAt(u, s, r.s, c[height])
        && (Good(u, s.t, lo, tip) && c[u[tip].height].hash == tip ==> Good(u, r.s.t, height, c[height].hash))
  {
    hide UniqueSlots, Contiguous, Grounded, Bottomed, MainIs, ImportTip, TipUpdatedFrom;
    TipStored(u, s.t, lo, tip);
    RangeSlice(u, c, height, 1);
    if height < |c| {
      var b := c[height];
      assert Range(c, height, 1) == [b] && Fits(u, b);
      if c[u[tip].height].hash == tip { ChainAncestor(u, c, height, u[tip].height); }
      ImportGood(u, s.t, lo, tip, top, b);
      ImportCallback(u, cfg, ImportTip(u, s.t, b).table, b, c);
    }
  }

  lemma {:induction false} FirstImportStep(u: Tree, cfg: Config, s: State, height: nat, c: seq<Block>,
                                           throws: bool := false)
    requires WellFormed(u) && s.t == map[] && IsChain(u, c)
    ensures var r := ImportNewTip(u, cfg, s, height, Some(c), throws);
      if height >= |c| then r == Done(s, false)
      else
        && !r.StepAborted? && (r.Threw? <==> throws) && (r.Done? ==> r.more) && ImportedAt(u, s, r.s, c[height])
        && Good(u, r.s.t, height, c[height].hash)
  {
    hide UniqueSlots, Contiguous, Grounded, Bottomed, MainIs, ImportTip, TipUpdatedFrom;
    RangeSlice(u, c, height, 1);
    if height < |c| {
      var b := c[height];
      assert Range(c, height, 1) == [b] && Fits(u, b);
      FirstImportGood(u, b);
      ImportCallback(u, cfg, ImportTip(u, s.t, b).table, b, c);
    }
  }

  // ----- Extending the chain

  /** The state after blocks of chain c up to height k were attached. */
  ghost predicate Extended(u: Tree, cfg: Config, t: Table, lo: nat, tip: Hash, c: seq<Block>, k: nat,
                           t': Table, lo': nat)
  {
    && lo <= k < |c| && Steady(u, t', lo', c[k].hash)
    && (lo' == lo || lo' == LoAfter(cfg, lo, k))
    && (Good(u, t, lo, tip) ==> Good(u, t', lo', c[k].hash))
  }

  lemma ExtendGood(u: Tree, cfg: Config, s: State, lo: nat, tip: Hash, c: seq<Block>, start: nat, bs: seq<Block>,
                   num: nat, throws: bool := false) returns (lo': nat)
    requires Steady(u, s.t, lo, tip) && Slice(u, c, start, bs) && Contains(u, c, lo, tip) && lo <= start
    requires |bs| <= num && NoHash !in u && AttachBlocks(u, s.t, bs).AttachedBlocks?
    ensures var a := AttachBlocks(u, s.t, bs);
      var r := Extend(u, cfg, s, a.t, tip, bs, num, c, throws);
      && a.oldTip == tip && !r.StepAborted? && (r.Threw? <==> throws && tip != Last(bs).hash)
      && (r.Done? ==> (r.more <==> |bs| == num)) && r.s.next == -1 && r.s.imports == s.imports
      && r.s.numBlocks == (if r.Done? && !r.more then 1 else s.numBlocks)
      && s.sent <= r.s.sent && Walk(tip, r.s.sent[|s.sent|..]) == Some(Last(bs).hash)
      && (tip != Last(bs).hash ==> TipMessages(r.s.sent[|s.sent|..], tip, Last(bs).hash))
      && Extended(u, cfg, s.t, lo, tip, c, start + |bs| - 1, r.s.t, lo')
      && MainIsRange(r.s.t, c, lo', start + |bs| - 1)
      && lo' == (if throws || tip == Last(bs).hash then lo else LoAfter(cfg, lo, start + |bs| - 1))
  {
    hide UniqueSlots, Contiguous, Grounded, Bottomed, MainIs, MainIsRange, TipUpdatedFrom, AttachBlocks, AttachList,
      TipMessages, LoAfter;
    var a := AttachBlocks(u, s.t, bs);
    AttachBlocksGood(u, s.t, lo, tip, c, start, bs);
    var r := Extend(u, cfg, s, a.t, tip, bs, num, c, throws);
    var k := start + |bs| - 1;
    assert Last(bs) == c[k] && Fits(u, c[k]);
    if tip == Last(bs).hash {
      assert r.s.sent[|s.sent|..] == [];
      lo' := lo;
    } else {
      NotifyGood(u, cfg, s.t, lo, tip, a.t, c, start, bs);
      var cb := TipUpdatedFrom(u, cfg, a.t, tip, AttachList(u, s.t, bs), c);
      assert r.s.sent[|s.sent|..] == cb.msgs;
      lo' := if throws then lo else LoAfter(cfg, lo, k);
    }
    MainIsSegment(u, r.s.t, lo', c, k);
  }

  lemma NotifyGood(u: Tree, cfg: Config, t: Table, lo: nat, tip: Hash, t': Table, c: seq<Block>, start: nat,
                   bs: seq<Block>)
    requires Steady(u, t, lo, tip) && Slice(u, c, start, bs) && Contains(u, c, lo, tip) && lo <= start && NoHash !in u
    requires bs != [] && (bs[0].hash in t || bs[0].parent in t) && t.Keys <= t'.Keys
    requires Steady(u, t', lo, Last(bs).hash) && tip != Last(bs).hash
    ensures var r := TipUpdatedFrom(u, cfg, t', tip, AttachList(u, t, bs), c);
      && r.Notified? && TipMessages(r.msgs, tip, Last(bs).hash) && Walk(tip, r.msgs) == Some(Last(bs).hash)
      && Steady(u, r.t, LoAfter(cfg, lo, Last(bs).height), Last(bs).hash)
      && (Good(u, t', lo, Last(bs).hash) ==> Good(u, r.t, LoAfter(cfg, lo, Last(bs).height), Last(bs).hash))
      && TipUpdatedFrom(u, cfg, t', tip, AttachList(u, t, bs), c, true) == CallbackThrew(r.msgs)
  {
    hide UniqueSlots, Contiguous, Grounded, Bottomed, MainIs, TipUpdatedFrom, AttachList, LoAfter;
    SoundIsStepped(u, t);
    SoundIsStepped(u, t');
    TipStored(u, t, lo, tip);
    OnChainDescends(u, c, lo, tip, start);
    ChainAncestor(u, c, start + |bs| - 1, start);
    assert Fits(u, Last(bs));
    ListStart(u, t, lo, tip, bs[0], t', Last(bs).hash);
    ListIsPath(u, t, c, start, bs);
    DescendsTrans(u, Last(bs).hash, bs[0].hash, Lowest(u, lo, tip));
    CallbackGood(u, cfg, t', lo, Last(bs).hash, tip, AttachList(u, t, bs), start - |ForkWalk(t, bs[0].parent)|, c);
  }
}
