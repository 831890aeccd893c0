/** Reorgs below main[L]: what a step does with a range of a chain that does not contain the
    local main[L], and exactly when it aborts the process. */
module DeepReorg {
  import opened BlockTree
  import opened ChainTable
  import opened Reorg
  import opened ChainRuns
  import opened Notify
  import opened SyncSpec
  import opened SyncSafety
  import opened SyncRuns

  /** The two chains share no stored or missing block at which both can be joined: parents
      from main[L] and from the new range end at different blocks. */
  ghost predicate Severed(u: Tree, t: Table, lo: nat, tip: Hash, q: Hash)
    requires WellFormed(u) && MainIs(u, t, lo, tip) && Stepped(t)
  {
    ForkEnd(t, u[Lowest(u, lo, tip)].parent) != ForkEnd(t, q)
  }

  predicate Dangling(t: Table, x: Hash) { x in t && t[x].blk.parent !in t }

  /** The answers that abort a step which asks for blocks from height start on; with checked
      set, the callback runs the sanity check. */
  ghost predicate Fatal(u: Tree, checked: bool, t: Table, lo: nat, tip: Hash, c: seq<Block>, start: nat)
    requires WellFormed(u) && MainIs(u, t, lo, tip) && Stepped(t)
  {
    && !Contains(u, c, lo, tip)
    && (if start >= |c| || (c[start].hash !in t && c[start].parent !in t) then start == lo
        else
          || Severed(u, t, lo, tip, c[start].parent)
          || (checked && exists x :: Dangling(t, x) && t[x].blk.height > start - |ForkWalk(t, c[start].parent)|))
  }

  // ----- A chain without main[L]

  /** Another chain at height L has no block in common with the main chain. */
  lemma OffChain(u: Tree, t: Table, lo: nat, tip: Hash, c: seq<Block>, k: nat)
    requires WellFormed(u) && MainIs(u, t, lo, tip) && IsChain(u, c) && k < |c|
    requires lo < |c| && c[lo].hash != Lowest(u, lo, tip)
    ensures !OnMain(t, c[k].hash)
  {
    assert Fits(u, c[k]);
    assert OnMain(t, c[k].hash) <==> Between(u, c[k].hash, lo, tip);
    if lo <= k {
      ChainAncestor(u, c, k, lo);
      if Descends(u, tip, c[k].hash) { AncestorCompose(u, tip, k, lo); }
    }
  }

  /** An ancestor of a block of a chain is on the chain. */
  lemma OnAncestry(u: Tree, c: seq<Block>, k: nat, x: Hash)
    requires WellFormed(u) && IsChain(u, c) && k < |c| && Descends(u, c[k].hash, x)
    ensures u[x].height <= k && c[u[x].height].hash == x
  {
    assert Fits(u, c[k]);
    ChainAncestor(u, c, k, u[x].height);
  }

  /** The walk down that chain never meets the main chain. */
  lemma WalkStaysOff(u: Tree, t: Table, lo: nat, tip: Hash, c: seq<Block>, start: nat)
    requires Sound(u, t) && MainIs(u, t, lo, tip) && Stepped(t) && IsChain(u, c) && lo <= start < |c|
    requires c[lo].hash != Lowest(u, lo, tip)
    ensures !OnMain(t, ForkEnd(t, c[start].parent)) && !OnMain(t, c[start].hash)
    ensures LowAfter(t, lo, c[start]) == start - |ForkWalk(t, c[start].parent)|
    ensures c[start].parent in t ==> start > 0 && c[start].parent == c[start - 1].hash
  {
    hide MainIs, ForkWalk;
    OffChain(u, t, lo, tip, c, start);
    var q := c[start].parent;
    assert Fits(u, c[start]) && Rooted(u, c[start].hash);
    if q in t {
      assert Fits(u, t[q].blk) && q == c[start - 1].hash;
      WalkEnd(u, t, q);
      var e := ForkEnd(t, q);
      if e in u {
        OnAncestry(u, c, start - 1, e);
        OffChain(u, t, lo, tip, c, u[e].height);
      }
    }
  }

  /** The situation after a range of such a chain was attached. */
  ghost predicate Swapped(u: Tree, t: Table, lo: nat, tip: Hash, c: seq<Block>, start: nat, bs: seq<Block>, t': Table) {
    && Steady(u, t, lo, tip) && Stepped(t) && Stepped(t') && Slice(u, c, start, bs) && lo <= start
    && c[lo].hash != Lowest(u, lo, tip) && (bs[0].hash in t || bs[0].parent in t)
    && Grown(t, t', bs)
    && 0 <= NewBottom(t, c, start) <= lo
    && Chained(u, t', NewBottom(t, c, start), Last(bs).hash, lo)
  }

  /** The lowest main-chain height after that. */
  ghost function NewBottom(t: Table, c: seq<Block>, start: nat): int
    requires Stepped(t) && start < |c|
  {
    start - |ForkWalk(t, c[start].parent)|
  }

  lemma AttachSwaps(u: Tree, t: Table, lo: nat, tip: Hash, c: seq<Block>, start: nat, bs: seq<Block>)
    requires Steady(u, t, lo, tip) && Stepped(t) && Slice(u, c, start, bs) && lo <= start
    requires c[lo].hash != Lowest(u, lo, tip) && (bs[0].hash in t || bs[0].parent in t)
    ensures var r := AttachBlocks(u, t, bs);
      r.AttachedBlocks? && r.oldTip == tip && Swapped(u, t, lo, tip, c, start, bs, r.t)
  {
    hide UniqueSlots, Contiguous, Bottomed, MainIs, AttachBlocks, ForkWalk;
    AttachBlocksAny(u, t, lo, tip, c, start, bs);
    WalkStaysOff(u, t, lo, tip, c, start);
    SoundIsStepped(u, AttachBlocks(u, t, bs).t);
  }

  // ----- Where the walk from the old tip leads then

  lemma OldMainOff(u: Tree, t: Table, lo: nat, tip: Hash, c: seq<Block>, start: nat, bs: seq<Block>, t': Table, x: Hash)
    requires Swapped(u, t, lo, tip, c, start, bs, t') && OnMain(t, x)
    ensures OffMain(t', x) && t'[x].blk == t[x].blk
  {
    hide UniqueSlots, Contiguous, Bottomed, ForkWalk, NewBottom;
    if OnMain(t', x) {
      assert Between(u, x, NewBottom(t, c, start), Last(bs).hash);
      OnAncestry(u, c, start + |bs| - 1, x);
      OffChain(u, t, lo, tip, c, u[x].height);
    }
  }

  /** From every old main-chain block, the walk goes on at the parent of main[L]. */
  lemma {:induction false} OldMainWalk(u: Tree, t: Table, lo: nat, tip: Hash, c: seq<Block>, start: nat, bs: seq<Block>,
                                       t': Table, x: Hash)
    requires Swapped(u, t, lo, tip, c, start, bs, t') && OnMain(t, x)
    ensures ForkEnd(t', x) == ForkEnd(t', u[Lowest(u, lo, tip)].parent)
    decreases t[x].blk.height
  {
    hide UniqueSlots, Contiguous, Bottomed, ForkWalk, NewBottom, Grown, Slice;
    OldMainOff(u, t, lo, tip, c, start, bs, t', x);
    assert StepsDown(t', x) && Fits(u, t[x].blk) && Between(u, x, lo, tip);
    if t[x].blk.height > lo {
      MainParent(u, t, lo, tip, x);
      OldMainWalk(u, t, lo, tip, c, start, bs, t', t[x].blk.parent);
    }
  }

  lemma {:induction false} SameEnd(u: Tree, t: Table, h: Hash, x: Hash)
    requires Sound(u, t) && Stepped(t) && x in Hashes(ForkWalk(t, h))
    ensures ForkEnd(t, x) == ForkEnd(t, h)
    decreases if h in t then t[h].blk.height + 1 else 0
  {
    if x != h {
      assert StepsDown(t, h) && t[h].blk.hash == h;
      SameEnd(u, t, t[h].blk.parent, x);
    }
  }

  /** New main-chain blocks below the range are from the walk. */
  lemma TakenFromWalk(u: Tree, t: Table, lo: nat, tip: Hash, c: seq<Block>, start: nat, bs: seq<Block>, t': Table,
                      x: Hash)
    requires Swapped(u, t, lo, tip, c, start, bs, t') && OnMain(t', x) && x in u && u[x].height < start
    ensures ForkEnd(t, x) == ForkEnd(t, c[start].parent)
  {
    hide UniqueSlots, Contiguous, Bottomed, ForkWalk, Grown;
    var q := c[start].parent;
    assert Between(u, x, NewBottom(t, c, start), Last(bs).hash);
    OnAncestry(u, c, start + |bs| - 1, x);
    assert q == c[start - 1].hash && Fits(u, c[start - 1]);
    ChainAncestor(u, c, start - 1, u[x].height);
    assert OffMain(t, q);
    WalkHas(u, t, q, x);
    SameEnd(u, t, q, x);
  }

  lemma BelowRange(u: Tree, t: Table, lo: nat, tip: Hash, c: seq<Block>, start: nat, bs: seq<Block>, t': Table, x: Hash)
    requires Swapped(u, t, lo, tip, c, start, bs, t') && (x in u ==> u[x].height < start)
    ensures x in t' <==> x in t
    ensures x in t ==> t'[x].blk == t[x].blk && Fits(u, t[x].blk)
  {
    hide UniqueSlots, Contiguous, Bottomed, ForkWalk, NewBottom, MainIs;
    forall b | b in bs ensures b.height >= start && Fits(u, b) {
      var i :| 0 <= i < |bs| && bs[i] == b;
      assert b == c[start + i];
    }
    if x in t { assert Fits(u, t[x].blk); }
  }

  /** Below height L, walks either meet the new main chain, and then its walk has the same
      end, or are as before. */
  lemma {:induction false} EndAfter(u: Tree, t: Table, lo: nat, tip: Hash, c: seq<Block>, start: nat, bs: seq<Block>,
                                    t': Table, x: Hash)
    requires Swapped(u, t, lo, tip, c, start, bs, t') && (x in u ==> u[x].height < lo)
    ensures var e := ForkEnd(t', x);
      && (e in u ==> u[e].height < lo)
      && (if OnMain(t', e) then ForkEnd(t, x) == ForkEnd(t, c[start].parent) else e !in t' && e == ForkEnd(t, x))
    decreases if x in u then u[x].height + 1 else 0
  {
    hide UniqueSlots, Contiguous, Bottomed, ForkWalk, NewBottom, Grown, Slice;
    BelowRange(u, t, lo, tip, c, start, bs, t', x);
    if OnMain(t', x) {
      TakenFromWalk(u, t, lo, tip, c, start, bs, t', x);
    } else if x in t {
      assert OnMain(t, x) <==> Between(u, x, lo, tip);
      assert StepsDown(t, x) && StepsDown(t', x) && Rooted(u, x);
      EndAfter(u, t, lo, tip, c, start, bs, t', t[x].blk.parent);
    }
  }

  // ----- The messages

  /** The old tip, and where its walk ends: below L, on the new main chain or missing. */
  lemma OldTip(u: Tree, t: Table, lo: nat, tip: Hash, c: seq<Block>, start: nat, bs: seq<Block>, t': Table)
    requires Swapped(u, t, lo, tip, c, start, bs, t')
    ensures OffMain(t', tip) && tip != Last(bs).hash
    ensures var w := ForkWalk(t', tip); var e := ForkEnd(t', tip);
      && w != [] && Last(w).parent == e && Last(w).height > 0 && LinkedDown(tip, w)
      && e in u && u[e].height == Last(w).height - 1 && u[e].height < lo
      && (if OnMain(t', e) then ForkEnd(t, u[Lowest(u, lo, tip)].parent) == ForkEnd(t, c[start].parent)
          else e !in t' && e == ForkEnd(t, u[Lowest(u, lo, tip)].parent))
  {
    hide UniqueSlots, Contiguous, NewBottom, ForkWalk, Grown;
    var low := Lowest(u, lo, tip);
    var e := ForkEnd(t', tip);
    OldMainOff(u, t, lo, tip, c, start, bs, t', tip);
    OldMainWalk(u, t, lo, tip, c, start, bs, t', tip);
    assert Rooted(u, low);
    EndAfter(u, t, lo, tip, c, start, bs, t', u[low].parent);
    WalkEnd(u, t', tip);
    WalkIsAncestry(u, t', tip);
    var w := ForkWalk(t', tip);
    if OnMain(t', e) { assert Fits(u, t'[e].blk); }
    assert OffMain(t', Last(w).hash);
    assert Fits(u, t'[Last(w).hash].blk) && Rooted(u, Last(w).hash);
    assert OnMain(t', Last(bs).hash);
  }

  /** The list of attaches starts right above the end of the walk down the range's chain. */
  lemma ListBottom(u: Tree, t: Table, lo: nat, tip: Hash, c: seq<Block>, start: nat, bs: seq<Block>, t': Table)
    requires Swapped(u, t, lo, tip, c, start, bs, t')
    ensures var l := AttachList(u, t, bs);
      PathTo(u, l, NewBottom(t, c, start), Last(bs).hash) && l[0].parent == ForkEnd(t, c[start].parent)
  {
    hide UniqueSlots, Contiguous, Bottomed, MainIs, Grown;
    ListIsPath(u, t, c, start, bs);
    var q := c[start].parent;
    if q in t { WalkEnd(u, t, q); }
    var w := ForkWalk(t, q);
    if w != [] { assert AttachList(u, t, bs)[0] == w[|w| - 1]; } else { assert AttachList(u, t, bs)[0] == bs[0]; }
  }

  /** A block of the list that stands on e, if e is missing, is the first one. */
  lemma StandsOnMissing(u: Tree, t': Table, low: nat, tip': Hash, l: seq<Block>, e: Hash, i: nat)
    requires WellFormed(u) && MainIs(u, t', low, tip') && PathTo(u, l, low, tip') && !OnMain(t', e)
    requires i < |l| && l[i].parent == e
    ensures i == 0
  {
    if i > 0 { assert Between(u, l[i - 1].hash, low, tip'); }
  }

  /** The new chain can be joined exactly if it is not severed. */
  lemma JoinsIff(u: Tree, t: Table, lo: nat, tip: Hash, c: seq<Block>, start: nat, bs: seq<Block>, t': Table)
    requires Swapped(u, t, lo, tip, c, start, bs, t')
    ensures ForkEnd(t', tip) in u && NewBottom(t, c, start) >= 0
    ensures var e := ForkEnd(t', tip); var l := AttachList(u, t, bs);
      && (Severed(u, t, lo, tip, c[start].parent) ==>
            forall i | 0 <= i < |l| :: !(l[i].height == u[e].height + 1 && l[i].parent == e))
      && (!Severed(u, t, lo, tip, c[start].parent) ==>
            Descends(u, Last(bs).hash, e) && NewBottom(t, c, start) <= u[e].height + 1)
  {
    hide UniqueSlots, Contiguous, Bottomed, Grown, AttachList, ForkWalk;
    var e := ForkEnd(t', tip);
    var l := AttachList(u, t, bs);
    var low := NewBottom(t, c, start);
    OldTip(u, t, lo, tip, c, start, bs, t');
    ListBottom(u, t, lo, tip, c, start, bs, t');
    if OnMain(t', e) {
      assert Between(u, e, low, Last(bs).hash);
    } else {
      forall i | 0 <= i < |l| && l[i].parent == e ensures i == 0 {
        StandsOnMissing(u, t', low, Last(bs).hash, l, e, i);
      }
      if l[0].parent == e {
        assert Fits(u, l[0]) && Rooted(u, l[0].hash);
        ParentDescends(u, l[0].hash);
        DescendsTrans(u, Last(bs).hash, l[0].hash, e);
      }
    }
  }

  lemma GivenFails(d: seq<Block>, h: nat, e: Hash, l: seq<Block>)
    requires l != [] && d != [] && Last(l).hash != Last(d).parent
    requires forall i | 0 <= i < |l| :: !(l[i].height == h + 1 && l[i].parent == e)
    ensures PushGiven(d, h, e, l).CheckFailed?
  {
    if b :| b in l && b.height == h + 1 {
      var i :| 0 <= i < |l| && l[i] == b;
    }
  }

  /** What the tip update sends: a walk from the old tip to the new one, or a CHECK fails,
      exactly if the chains are severed. */
  lemma DeepPush(u: Tree, t: Table, lo: nat, tip: Hash, c: seq<Block>, start: nat, bs: seq<Block>, t': Table)
    requires Swapped(u, t, lo, tip, c, start, bs, t') && NoHash !in u
    ensures var p := PushZmqBlocks(u, t', tip, NoHash, AttachList(u, t, bs), 0, c, c, c);
      if Severed(u, t, lo, tip, c[start].parent) then p.CheckFailed?
      else p.Pushed? && p.ok && Walk(tip, p.msgs) == Some(Last(bs).hash)
  {
    hide UniqueSlots, Contiguous, Bottomed, Grown, AttachList, ForkWalk, Severed, PushGiven, PathTo, NewBottom;
    var l := AttachList(u, t, bs);
    var e := ForkEnd(t', tip);
    var d := ForkWalk(t', tip);
    var tip' := Last(bs).hash;
    OldTip(u, t, lo, tip, c, start, bs, t');
    ListBottom(u, t, lo, tip, c, start, bs, t');
    JoinsIff(u, t, lo, tip, c, start, bs, t');
    PathNonEmpty(u, l, NewBottom(t, c, start), tip');
    Queries(u, t', NewBottom(t, c, start), tip');
    assert Fits(u, Last(bs)) && tip' != e;
    assert PushZmqBlocks(u, t', tip, NoHash, l, 0, c, c, c) == PushGiven(d, u[e].height, e, l);
    if Severed(u, t, lo, tip, c[start].parent) {
      GivenFails(d, u[e].height, e, l);
    } else {
      GivenValue(u, l, NewBottom(t, c, start), tip', e, d);
      var a := l[u[e].height + 1 - NewBottom(t, c, start)..];
      DetachWalk(tip, d);
      AttachWalk(e, a);
      WalkConcat(tip, Detaches(d), Attaches(a), e);
    }
  }

  // ----- The sanity check

  lemma DanglingBefore(u: Tree, t: Table, lo: nat, tip: Hash, x: Hash)
    requires Steady(u, t, lo, tip) && Dangling(t, x)
    ensures t[x].blk.height <= lo && x in u && u[x].height == t[x].blk.height
    ensures t[x].blk.parent in u ==> u[t[x].blk.parent].height < lo
  {
    hide UniqueSlots, Contiguous;
    assert Fits(u, t[x].blk) && Rooted(u, x);
    assert OnMain(t, x) || OffMain(t, x);
    if OnMain(t, x) && t[x].blk.height > lo { MainParent(u, t, lo, tip, x); }
  }

  /** What dangled above the new main chain before still does so. */
  lemma StaysDangling(u: Tree, t: Table, lo: nat, tip: Hash, c: seq<Block>, start: nat, bs: seq<Block>, t': Table,
                      x: Hash)
    requires Swapped(u, t, lo, tip, c, start, bs, t') && Dangling(t, x) && t[x].blk.height > NewBottom(t, c, start)
    ensures OffMain(t', x) && t'[x].blk == t[x].blk && t[x].blk.parent !in t'
  {
    hide UniqueSlots, Contiguous, Bottomed, ForkWalk, MainIs, NewBottom;
    DanglingBefore(u, t, lo, tip, x);
    BelowRange(u, t, lo, tip, c, start, bs, t', t[x].blk.parent);
    assert t'[x].blk == t[x].blk;
    if OnMain(t', x) { MainParent(u, t', NewBottom(t, c, start), Last(bs).hash, x); }
  }

  lemma RangeOnMain(u: Tree, t: Table, lo: nat, tip: Hash, c: seq<Block>, start: nat, bs: seq<Block>, t': Table,
                    b: Block)
    requires Swapped(u, t, lo, tip, c, start, bs, t') && b in bs
    ensures OnMain(t', b.hash)
  {
    hide UniqueSlots, Contiguous, Bottomed, ForkWalk, Grown;
    var i :| 0 <= i < |bs| && bs[i] == b;
    assert b == c[start + i] && Fits(u, b);
    ChainAncestor(u, c, start + |bs| - 1, start + i);
    assert Between(u, b.hash, NewBottom(t, c, start), Last(bs).hash);
  }

  /** What dangles now dangled before. */
  lemma WasDangling(u: Tree, t: Table, lo: nat, tip: Hash, c: seq<Block>, start: nat, bs: seq<Block>, t': Table,
                    x: Hash)
    requires Swapped(u, t, lo, tip, c, start, bs, t') && OffMain(t', x) && t'[x].blk.parent !in t'
    ensures Dangling(t, x) && t'[x].blk == t[x].blk && t[x].blk.height > 0
  {
    hide UniqueSlots, Contiguous, ForkWalk, MainIs, Slice, NewBottom;
    forall b | b in bs ensures OnMain(t', b.hash) {
      RangeOnMain(u, t, lo, tip, c, start, bs, t', b);
    }
  }

  /** The side branches that then dangle above the new main chain are those that dangled
      before. */
  lemma DanglingIff(u: Tree, t: Table, lo: nat, tip: Hash, c: seq<Block>, start: nat, bs: seq<Block>, t': Table)
    requires Swapped(u, t, lo, tip, c, start, bs, t')
    ensures Bottomed(t', NewBottom(t, c, start)) <==>
      forall x | Dangling(t, x) :: t[x].blk.height <= NewBottom(t, c, start)
  {
    hide Swapped, NewBottom;
    SwappedFacts(u, t, lo, tip, c, start, bs, t');
    var low := NewBottom(t, c, start);
    if Bottomed(t', low) {
      forall x | Dangling(t, x) ensures t[x].blk.height <= low {
        if t[x].blk.height > low { StaysDangling(u, t, lo, tip, c, start, bs, t', x); }
      }
    }
    forall x | OffMain(t', x) && t'[x].blk.parent !in t'
      ensures Dangling(t, x) && t'[x].blk == t[x].blk && t[x].blk.height > 0
    {
      WasDangling(u, t, lo, tip, c, start, bs, t', x);
    }
  }

  lemma SwappedFacts(u: Tree, t: Table, lo: nat, tip: Hash, c: seq<Block>, start: nat, bs: seq<Block>, t': Table)
    requires Swapped(u, t, lo, tip, c, start, bs, t')
    ensures Stepped(t) && start < |c| && NewBottom(t, c, start) >= 0
  {
  }

  // ----- The step

  /** What follows an attach never aborts. */
  lemma ContinueSafe(u: Tree, cfg: Config, s: State, lo: nat, tip: Hash, top: nat, g: nat, c2: Reply, throws: bool)
    requires Settings(u, cfg) && Chained(u, s.t, lo, tip, top) && top <= u[tip].height && Authenticated(u, c2)
    ensures !Continue(u, cfg, s, u[tip].height, g, c2, throws).StepAborted?
  {
    hide UniqueSlots, Contiguous, Bottomed, MainIs, ImportNewTip;
    TipStored(u, s.t, lo, tip);
    if u[tip].height < g {
      if c2.Some? {
        ImportStep(u, cfg, s, lo, tip, top, g, c2.value, throws);
      } else {
        ImportThrows(u, cfg, s, g, throws);
      }
    }
  }

  lemma DeepCallback(u: Tree, cfg: Config, t: Table, lo: nat, tip: Hash, c: seq<Block>, start: nat, bs: seq<Block>,
                     t': Table, throws: bool)
    requires Swapped(u, t, lo, tip, c, start, bs, t') && NoHash !in u
    ensures var r := TipUpdatedFrom(u, cfg, t', tip, AttachList(u, t, bs), c, throws);
      && (r.CallbackAborted? <==> Fatal(u, cfg.sanity && !throws, t, lo, tip, c, start))
      && (!r.CallbackAborted? ==> Walk(tip, r.msgs) == Some(Last(bs).hash) && (r.CallbackThrew? <==> throws))
      && (r.Notified? ==> r.t == Pruned(cfg, t', Last(bs).height))
      && (r.Notified? && cfg.sanity ==> Steady(u, t', NewBottom(t, c, start), Last(bs).hash))
  {
    hide UniqueSlots, Contiguous, Bottomed, Grown, AttachList, ForkWalk, Severed, PushZmqBlocks, Pruned, Sane,
      NewBottom,
      PathTo;
    ListBottom(u, t, lo, tip, c, start, bs, t');
    PathNonEmpty(u, AttachList(u, t, bs), NewBottom(t, c, start), Last(bs).hash);
    DeepPush(u, t, lo, tip, c, start, bs, t');
    SaneIff(u, t', NewBottom(t, c, start), Last(bs).hash, lo);
    DanglingIff(u, t, lo, tip, c, start, bs, t');
    Queries(u, t', NewBottom(t, c, start), Last(bs).hash);
    assert Fits(u, Last(bs));
    FatalValue(u, cfg.sanity && !throws, t, lo, tip, c, start);
  }

  lemma FatalValue(u: Tree, checked: bool, t: Table, lo: nat, tip: Hash, c: seq<Block>, start: nat)
    requires WellFormed(u) && MainIs(u, t, lo, tip) && Stepped(t) && !Contains(u, c, lo, tip)
    requires start < |c| && (c[start].hash in t || c[start].parent in t)
    ensures Fatal(u, checked, t, lo, tip, c, start) <==>
      Severed(u, t, lo, tip, c[start].parent) ||
      (checked && !(forall x | Dangling(t, x) :: t[x].blk.height <= NewBottom(t, c, start)))
  {
  }

  lemma DeepAdvance(u: Tree, cfg: Config, s: State, lo: nat, tip: Hash, c: seq<Block>, start: nat, bs: seq<Block>,
                    num: nat, g: nat, c2: Reply, f: Faults)
    requires Settings(u, cfg) && Steady(u, s.t, lo, tip) && Stepped(s.t) && Slice(u, c, start, bs) && lo <= start
    requires c[lo].hash != Lowest(u, lo, tip) && (bs[0].hash in s.t || bs[0].parent in s.t) && Authenticated(u, c2)
    ensures var a := AttachBlocks(u, s.t, bs);
      && a.AttachedBlocks?
      && (Advance(u, cfg, s, a.t, a.oldTip, bs, num, c, g, c2, f).StepAborted? <==>
            Fatal(u, cfg.sanity && !f.attach, s.t, lo, tip, c, start))
  {
    hide UniqueSlots, Contiguous, Bottomed, MainIs, AttachBlocks, TipUpdatedFrom, Fatal, Continue, AttachList, Grown,
      ForkWalk, Pruned;
    AttachSwaps(u, s.t, lo, tip, c, start, bs);
    var a := AttachBlocks(u, s.t, bs);
    OldTip(u, s.t, lo, tip, c, start, bs, a.t);
    DeepCallback(u, cfg, s.t, lo, tip, c, start, bs, a.t, f.attach);
    var e := Extend(u, cfg, s, a.t, tip, bs, num, c, f.attach);
    if e.Done? {
      assert Fits(u, Last(bs));
      var lo', top' := PrunedChained(u, cfg, a.t, NewBottom(s.t, c, start), Last(bs).hash, lo);
      ContinueSafe(u, cfg, e.s, lo', Last(bs).hash, top', g, c2, f.jump);
    }
  }

  /** A step aborts if and only if the range is fatal, whatever the other answers are. */
  lemma {:induction false} AbortsIff(u: Tree, cfg: Config, origin: Option<Hash>, s: State, lo: nat, tip: Hash,
                                     c0: seq<Block>, c1: seq<Block>, c2: Reply, f: Faults)
    requires SyncInv(u, cfg, origin, s) && Placed(u, origin, s, lo, tip) && Stepped(s.t)
    requires IsChain(u, c0) && IsChain(u, c1) && Authenticated(u, c2)
    ensures StartHeight(u, s, tip) >= lo
    ensures UpdateStep(u, cfg, s, Some(c0), Some(c1), c2, f).StepAborted? <==>
      Fatal(u, cfg.sanity && !f.attach, s.t, lo, tip, c1, StartHeight(u, s, tip))
  {
    hide UniqueSlots, Contiguous, Bottomed, MainIs, UpdateStep, AttachBlocks, Advance, Severed, Follows, SyncInv,
      ForkWalk, Contains, Range;
    TipStored(u, s.t, lo, tip);
    if Contains(u, c1, lo, tip) {
      var lo', tip' := RunningStep(u, cfg, origin, s, lo, tip, c0, c1, c2, f);
    } else {
      WithoutMain(u, cfg, origin, s, lo, tip, c0, c1, c2, f);
    }
  }

  lemma WithoutMain(u: Tree, cfg: Config, origin: Option<Hash>, s: State, lo: nat, tip: Hash,
                    c0: seq<Block>, c1: seq<Block>, c2: Reply, f: Faults)
    requires SyncInv(u, cfg, origin, s) && Placed(u, origin, s, lo, tip) && Stepped(s.t)
    requires IsChain(u, c0) && IsChain(u, c1) && Authenticated(u, c2) && !Contains(u, c1, lo, tip)
    ensures StartHeight(u, s, tip) >= lo
    ensures UpdateStep(u, cfg, s, Some(c0), Some(c1), c2, f).StepAborted? <==>
      Fatal(u, cfg.sanity && !f.attach, s.t, lo, tip, c1, StartHeight(u, s, tip))
  {
    hide UniqueSlots, Contiguous, Bottomed, MainIs, UpdateStep, AttachBlocks, Advance, Severed, Follows, ForkWalk,
      LowestHeight, Range;
    TipStored(u, s.t, lo, tip);
    Queries(u, s.t, lo, tip);
    StepValue(u, cfg, s, lo, tip, c0, c1, c2, f);
    var start := StartHeight(u, s, tip);
    var num := Max(s.numBlocks, 3);
    var bs := Range(c1, start, num);
    RangeSlice(u, c1, start, num);
    if bs == [] {
      NothingFits(u, s.t);
    } else {
      AttachBlocksAny(u, s.t, lo, tip, c1, start, bs);
      if bs[0].hash in s.t || bs[0].parent in s.t {
        DeepAdvance(u, cfg, s, lo, tip, c1, start, bs, num, GenesisHeight(cfg, c0), c2, f);
      }
    }
  }
}
