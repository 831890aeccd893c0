/** A game process that catches up by repeated game_sendupdates3 requests, against
    a base chain that stands still and a local chainstate that is in sync. */
module CatchUp {
  import opened BlockTree
  import opened ChainTable
  import opened Reorg
  import opened Notify
  import opened SyncSpec
  import opened SyncRuns
  import opened Convergence

  /** The chainstate is good and its tip is the tip of the base chain c.  Heights
      stay below 2^32, as the requests compute with 32-bit unsigneds. */
  ghost predicate Synced(u: Tree, t: Table, lo: nat, c: seq<Block>) {
    IsChain(u, c) && |c| <= 0x1_0000_0000 && Good(u, t, lo, Last(c).hash) && NoHash !in u
  }

  /** One request without a to block. */
  ghost function Request(u: Tree, t: Table, c: seq<Block>, num: nat, from: Hash): Push
    requires Sound(u, t)
  {
    PushZmqBlocks(u, t, from, NoHash, [], num, c, c, c)
  }

  lemma SyncedFacts(u: Tree, t: Table, lo: nat, c: seq<Block>)
    requires Synced(u, t, lo, c)
    ensures Sound(u, t) && IsChain(u, c) && |c| <= 0x1_0000_0000
    ensures LowestHeight(t) == lo < |c| && TipHeight(t) == |c| - 1
  {
    hide UniqueSlots, Contiguous, Grounded, Bottomed;
    Queries(u, t, lo, Last(c).hash);
    assert Fits(u, c[|c| - 1]);
  }

  lemma ChainIsMain(u: Tree, t: Table, lo: nat, c: seq<Block>, k: nat)
    requires Synced(u, t, lo, c) && k < |c|
    ensures OnMain(t, c[k].hash) <==> lo <= k
    ensures lo < |c|
  {
    hide UniqueSlots, Contiguous, Grounded, Bottomed;
    var tip := Last(c).hash;
    assert Fits(u, c[|c| - 1]) && Fits(u, c[k]);
    ChainAncestor(u, c, |c| - 1, k);
    assert OnMain(t, c[k].hash) <==> Between(u, c[k].hash, lo, tip);
  }

  lemma WalkLast(u: Tree, t: Table, h: Hash)
    requires Sound(u, t) && Stepped(t) && h in t
    ensures var w := ForkWalk(t, h);
      if w == [] then ForkEnd(t, h) == h
      else Last(w).parent == ForkEnd(t, h) && Last(w).height + |w| == t[h].blk.height + 1
  {
    assert Fits(u, t[h].blk);
    if OffMain(t, h) { WalkIsAncestry(u, t, h); }
  }

  lemma ForkEndOnChain(u: Tree, t: Table, lo: nat, c: seq<Block>, from: Hash)
    requires Synced(u, t, lo, c) && Stepped(t) && from in t
    ensures var e := ForkEnd(t, from);
      && e in u && u[e].height < |c| && c[u[e].height].hash == e
      && from in u && u[e].height + |ForkWalk(t, from)| == u[from].height
  {
    hide UniqueSlots, Contiguous, Grounded, MainIs;
    assert Fits(u, c[|c| - 1]);
    ForkEndGrounded(u, t, lo, Last(c).hash, from);
    ChainAncestor(u, c, |c| - 1, u[ForkEnd(t, from)].height);
  }

  /** The fork point of every accepted block is on the base chain. */
  lemma ForkOnChain(u: Tree, t: Table, lo: nat, c: seq<Block>, from: Hash)
    requires Synced(u, t, lo, c) && Stepped(t) && Accepted(t, from, c)
    ensures var h := ForkHeight(t, from, c);
      && 0 <= h < |c|
      && c[h].hash == (if from in t && ForkWalk(t, from) != [] then Last(ForkWalk(t, from)).parent else from)
  {
    hide Synced, IsChain, LowestHeight, HeightOf, ForkWalk, ForkEnd;
    SyncedFacts(u, t, lo, c);
    if from in t {
      ForkEndOnChain(u, t, lo, c, from);
      assert Fits(u, t[from].blk);
      WalkLast(u, t, from);
    }
  }

  lemma KnownHeight(u: Tree, t: Table, b: Block)
    requires Sound(u, t) && Fits(u, b)
    ensures b.hash in t ==> t[b.hash].blk.height == b.height
  {
  }

  /** What is queried above a block of the base chain always passes the checks. */
  lemma QueriedOnChain(u: Tree, t: Table, lo: nat, c: seq<Block>, num: nat, detach: seq<Block>, h: nat, target: nat)
    requires Synced(u, t, lo, c) && num >= 1 && h <= target < |c|
    ensures var n := Min(num, target - h);
      var q := c[h + 1..h + 1 + n];
      PushQueried(t, detach, h, c[h].hash, target, num, c) == Pushed(true, Detaches(detach) + Attaches(q), detach, q)
  {
    hide Synced, LowestHeight, TipHeight, Sound;
    SyncedFacts(u, t, lo, c);
    var n := Min(num, target - h);
    assert U32(target - h) == target - h;
    var q := c[h + 1..h + 1 + n];
    assert Range(c, h + 1, n) == q;
    if n > 0 {
      assert q[0] == c[h + 1] && Last(q) == c[h + n];
      ChainIsMain(u, t, lo, c, h + n);
      KnownHeight(u, t, c[h + n]);
    } else {
      NoAttach(NoHash);
    }
  }

  /** So does what is queried below it. */
  lemma DownOnChain(u: Tree, c: seq<Block>, num: nat, detach: seq<Block>, h: nat, k: nat)
    requires IsChain(u, c) && |c| <= 0x1_0000_0000 && num >= 1 && k < h < |c|
    ensures var p := PushDown(detach, h, c[h].hash, k, num, c);
      p.Pushed? && p.ok && p.attach == [] && p.detach != [] && Last(p.detach).parent == c[Max(k, h - num)].hash
  {
    var n := Min(num, h - k);
    assert U32(h - k) == h - k;
    var q := Range(c, h - n + 1, n);
    assert q == c[h - n + 1..h + 1] && Last(q) == c[h];
    assert Last(detach + Reversed(q)) == q[0] == c[h - n + 1];
  }

  lemma QueriedFromFork(t: Table, d: seq<Block>, h: nat, e: Hash, num: nat, c: seq<Block>)
    ensures PushFromFork(t, d, h, e, NoHash, [], num, c, c) == PushQueried(t, d, h, e, TipHeight(t), num, c)
  {
  }

  lemma {:induction false} RequestValue(u: Tree, t: Table, lo: nat, c: seq<Block>, num: nat, from: Hash)
    requires Synced(u, t, lo, c) && Stepped(t) && num >= 1 && from != NoHash && Accepted(t, from, c)
    requires var h := ForkHeight(t, from, c);
      && 0 <= h < |c|
      && c[h].hash == (if from in t && ForkWalk(t, from) != [] then Last(ForkWalk(t, from)).parent else from)
    ensures Sound(u, t)
    ensures var h := ForkHeight(t, from, c);
      var d := if from in t then ForkWalk(t, from) else [];
      var q := c[h + 1..h + 1 + Min(num, |c| - 1 - h)];
      Request(u, t, c, num, from) == Pushed(true, Detaches(d) + Attaches(q), d, q)
  {
    hide Synced, LowestHeight, TipHeight, IsChain, HeightOf, PushQueried, Sound, Stepped, PushFromFork, Detaches,
      Attaches,
      ForkWalk;
    SyncedFacts(u, t, lo, c);
    var d := if from in t then ForkWalk(t, from) else [];
    var h := ForkHeight(t, from, c);
    QueriedOnChain(u, t, lo, c, num, d, h, |c| - 1);
    assert Request(u, t, c, num, from) == PushFromFork(t, d, h, c[h].hash, NoHash, [], num, c, c);
    QueriedFromFork(t, d, h, c[h].hash, num, c);
  }

  /** Every accepted request succeeds, and ends block-range blocks above the fork
      point, or at the tip. */
  lemma RequestResult(u: Tree, t: Table, lo: nat, c: seq<Block>, num: nat, from: Hash)
    requires Synced(u, t, lo, c) && Stepped(t) && num >= 1 && from != NoHash && Accepted(t, from, c)
    ensures 0 <= ForkHeight(t, from, c) < |c|
    ensures var p := Request(u, t, c, num, from);
      p.Pushed? && p.ok && ToBlock(from, p) == c[Min(ForkHeight(t, from, c) + num, |c| - 1)].hash
  {
    hide Synced, LowestHeight, TipHeight, IsChain, HeightOf, Request, Sound, Stepped, ForkWalk, Detaches, Attaches;
    SyncedFacts(u, t, lo, c);
    ForkOnChain(u, t, lo, c, from);
    RequestValue(u, t, lo, c, num, from);
  }

  /** Towards a to block on the base chain, up or down, a request gets as far as the block
      range allows; only at the height of the fork point it fails, right after the
      detaches. */
  lemma RequestToResult(u: Tree, t: Table, lo: nat, c: seq<Block>, num: nat, from: Hash, k: nat)
    requires Synced(u, t, lo, c) && Stepped(t) && num >= 1 && from != NoHash && Accepted(t, from, c) && k < |c|
    ensures Sound(u, t) && 0 <= ForkHeight(t, from, c) < |c|
    ensures var h := ForkHeight(t, from, c);
      var p := PushZmqBlocks(u, t, from, c[k].hash, [], num, c, c, c);
      && p.Pushed? && (p.ok <==> k != h)
      && ToBlock(from, p) == c[if k < h then Max(k, h - num) else Min(k, h + num)].hash
  {
    hide LowestHeight, TipHeight, IsChain, HeightOf, PushQueried, Sound, Stepped, PushZmqBlocks, PushDown, Detaches,
      Attaches,
      Steady, Grounded, ForkWalk, ForkHeight, Accepted;
    SyncedFacts(u, t, lo, c);
    ForkOnChain(u, t, lo, c, from);
    AcceptedValue(u, t, lo, Last(c).hash, from, c[k].hash, num, c, c, c);
    var d := if from in t then ForkWalk(t, from) else [];
    var h := ForkHeight(t, from, c);
    assert HeightOf(c, c[k].hash) == k && c[k].hash in u by { OnChainKnown(u, t, lo, c, k); }
    assert c[k].hash != NoHash;
    if k < h {
      DownOnChain(u, c, num, d, h, k);
    } else if k > h {
      QueriedOnChain(u, t, lo, c, num, d, h, k);
      assert Last(c[h + 1..h + 1 + Min(num, k - h)]) == c[Min(k, h + num)];
    }
  }

  lemma OnChainKnown(u: Tree, t: Table, lo: nat, c: seq<Block>, k: nat)
    requires Synced(u, t, lo, c) && k < |c|
    ensures HeightOf(c, c[k].hash) == k && c[k].hash in u
  {
  }

  // ----- Polling

  /** Where n requests in a row lead, each from the block the last one reported; a
      failed request leaves the process where it was. */
  ghost function Poll(u: Tree, t: Table, c: seq<Block>, num: nat, from: Hash, n: nat): Hash
    requires Sound(u, t)
    decreases n
  {
    if n == 0 then from
    else
      var p := Request(u, t, c, num, from);
      Poll(u, t, c, num, if p.Pushed? && p.ok then ToBlock(from, p) else from, n - 1)
  }

  /** Block k of the base chain is stored on a side branch. */
  predicate Strayed(t: Table, c: seq<Block>, k: nat) { k < |c| && OffMain(t, c[k].hash) }

  lemma NotNoHash(u: Tree, t: Table, lo: nat, c: seq<Block>)
    requires Synced(u, t, lo, c)
    ensures NoHash !in u
  {
  }

  lemma OnChainAccepted(u: Tree, t: Table, lo: nat, c: seq<Block>, k: nat)
    requires Synced(u, t, lo, c) && Stepped(t) && k < |c|
    ensures c[k].hash != NoHash && Accepted(t, c[k].hash, c)
    ensures ForkHeight(t, c[k].hash, c) == k - (if Strayed(t, c, k) then |ForkWalk(t, c[k].hash)| else 0)
  {
    hide Synced, LowestHeight, HeightOf;
    SyncedFacts(u, t, lo, c);
    NotNoHash(u, t, lo, c);
    assert Fits(u, c[k]);
    ChainIsMain(u, t, lo, c, k);
    ChainHeight(u, c, k);
    KnownHeight(u, t, c[k]);
    if OffMain(t, c[k].hash) { WalkIsAncestry(u, t, c[k].hash); }
  }

  /** With no stray blocks, k requests lead exactly k times the block range up the
      chain, through pruned and stored heights alike, until the tip is reached. */
  lemma {:induction false} PollClean(u: Tree, t: Table, lo: nat, c: seq<Block>, num: nat, h: nat, k: nat)
    requires Synced(u, t, lo, c) && Stepped(t) && num >= 1 && h < |c|
    requires forall i | 0 <= i < |c| :: !Strayed(t, c, i)
    ensures Poll(u, t, c, num, c[h].hash, k) == c[Min(h + k * num, |c| - 1)].hash
    decreases k
  {
    hide Synced, Request;
    if k > 0 {
      OnChainAccepted(u, t, lo, c, h);
      RequestResult(u, t, lo, c, num, c[h].hash);
      PollClean(u, t, lo, c, num, Min(h + num, |c| - 1), k - 1);
      Strides(h, num, k, |c| - 1);
    }
  }

  /** So from any accepted block, exactly distance over range requests, rounded up, are
      needed to get from its fork point to the tip. */
  lemma PollAccepted(u: Tree, t: Table, lo: nat, c: seq<Block>, num: nat, from: Hash, k: nat)
    requires Synced(u, t, lo, c) && Stepped(t) && num >= 1 && from != NoHash && Accepted(t, from, c) && k >= 1
    requires forall i | 0 <= i < |c| :: !Strayed(t, c, i)
    ensures 0 <= ForkHeight(t, from, c) < |c|
    ensures Poll(u, t, c, num, from, k) == c[Min(ForkHeight(t, from, c) + k * num, |c| - 1)].hash
    ensures Poll(u, t, c, num, from, k) == Last(c).hash <==> ForkHeight(t, from, c) + k * num >= |c| - 1
  {
    hide Synced, ForkHeight, Accepted, Strayed, Sound, Stepped, PushZmqBlocks, HeightOf, LowestHeight, TipHeight,
      IsChain;
    SyncedFacts(u, t, lo, c);
    RequestResult(u, t, lo, c, num, from);
    var h := ForkHeight(t, from, c);
    var next := Min(h + num, |c| - 1);
    assert Poll(u, t, c, num, from, k) == Poll(u, t, c, num, c[next].hash, k - 1);
    hide Poll, Request;
    PollClean(u, t, lo, c, num, next, k - 1);
    Strides(h, num, k, |c| - 1);
    OnlyTip(u, t, lo, c, Min(h + k * num, |c| - 1));
  }

  lemma OnlyTip(u: Tree, t: Table, lo: nat, c: seq<Block>, i: nat)
    requires Synced(u, t, lo, c) && i < |c|
    ensures c[i].hash == Last(c).hash <==> i == |c| - 1
  {
    hide Synced;
    OnChainKnown(u, t, lo, c, i);
    OnChainKnown(u, t, lo, c, |c| - 1);
  }

  /** A first stride, and then k - 1 more. */
  lemma Strides(h: nat, num: nat, k: nat, top: nat)
    requires k >= 1 && h <= top
    ensures Min(Min(h + num, top) + (k - 1) * num, top) == Min(h + k * num, top)
  {
  }

  /** Polling from this block reaches the tip of the base chain. */
  ghost predicate Arrives(u: Tree, t: Table, c: seq<Block>, num: nat, from: Hash)
    requires Sound(u, t) && c != []
  {
    exists n :: Poll(u, t, c, num, from, n) == Last(c).hash
  }

  /** Stray blocks do no harm as long as no run of them is as long as the range. */
  ghost predicate ShortStrays(t: Table, c: seq<Block>, num: nat)
    requires Stepped(t)
  {
    forall k: nat | Strayed(t, c, k) :: |ForkWalk(t, c[k].hash)| < num
  }

  lemma {:induction false} ArrivesOnChain(u: Tree, t: Table, lo: nat, c: seq<Block>, num: nat, h: nat) returns (n: nat)
    requires Synced(u, t, lo, c) && Stepped(t) && num >= 1 && h < |c| && ShortStrays(t, c, num)
    ensures Poll(u, t, c, num, c[h].hash, n) == Last(c).hash && n <= |c| - 1 - h
    decreases |c| - h
  {
    hide Synced, Request;
    if h == |c| - 1 {
      n := 0;
    } else {
      OnChainAccepted(u, t, lo, c, h);
      RequestResult(u, t, lo, c, num, c[h].hash);
      var m := ArrivesOnChain(u, t, lo, c, num, Min(ForkHeight(t, c[h].hash, c) + num, |c| - 1));
      n := m + 1;
    }
  }

  /** A side-branch suffix of a fork walk is again a fork walk. */
  lemma {:induction false} WalkSuffix(u: Tree, t: Table, h: Hash, m: nat)
    requires Sound(u, t) && Stepped(t) && OffMain(t, h) && 1 <= m <= |ForkWalk(t, h)|
    ensures u[h].height + m >= |ForkWalk(t, h)| && u[h].height >= |ForkWalk(t, h)| - m
    ensures var x := AncestorAt(u, h, u[h].height - (|ForkWalk(t, h)| - m));
      OffMain(t, x) && |ForkWalk(t, x)| == m
    decreases u[h].height
  {
    WalkIsAncestry(u, t, h);
    if m < |ForkWalk(t, h)| {
      assert Fits(u, t[h].blk) && Rooted(u, h);
      WalkSuffix(u, t, t[h].blk.parent, m);
    }
  }

  lemma {:induction false} Stuck(u: Tree, t: Table, c: seq<Block>, num: nat, from: Hash, n: nat)
    requires Sound(u, t)
    requires var p := Request(u, t, c, num, from); p.Pushed? ==> ToBlock(from, p) == from
    ensures Poll(u, t, c, num, from, n) == from
  {
    if n > 0 { Stuck(u, t, c, num, from, n - 1); }
  }

  /** A run of stray blocks as long as the range holds a block from which a request
      leads nowhere: its blocks are detached and attached again, forever. */
  lemma LongStrayLoops(u: Tree, t: Table, lo: nat, c: seq<Block>, num: nat, k: nat) returns (j: nat)
    requires Synced(u, t, lo, c) && Stepped(t) && num >= 1 && Strayed(t, c, k) && |ForkWalk(t, c[k].hash)| >= num
    ensures j < |c| - 1 && Accepted(t, c[j].hash, c) && !Arrives(u, t, c, num, c[j].hash)
  {
    hide Synced, Arrives, LowestHeight;
    var h := c[k].hash;
    SyncedFacts(u, t, lo, c);
    assert Fits(u, c[k]);
    WalkSuffix(u, t, h, num);
    j := k - (|ForkWalk(t, h)| - num);
    ChainAncestor(u, c, k, j);
    LoopsAt(u, t, lo, c, num, j);
  }

  lemma LoopsAt(u: Tree, t: Table, lo: nat, c: seq<Block>, num: nat, j: nat)
    requires Synced(u, t, lo, c) && Stepped(t) && num >= 1 && Strayed(t, c, j) && |ForkWalk(t, c[j].hash)| == num
    ensures j < |c| - 1 && Accepted(t, c[j].hash, c) && !Arrives(u, t, c, num, c[j].hash)
  {
    hide Synced, Request, Poll, LowestHeight, ForkWalk, Sound, Stepped, HeightOf;
    SyncedFacts(u, t, lo, c);
    ChainIsMain(u, t, lo, c, j);
    OnChainAccepted(u, t, lo, c, j);
    RequestResult(u, t, lo, c, num, c[j].hash);
    assert Fits(u, c[j]) && Fits(u, c[|c| - 1]);
    forall n: nat ensures Poll(u, t, c, num, c[j].hash, n) != Last(c).hash {
      Stuck(u, t, c, num, c[j].hash, n);
    }
  }

  /** Polling reaches the tip from every accepted block if and only if every run of
      stored side-branch blocks on the base chain is shorter than the block range. */
  lemma CatchUpTheorem(u: Tree, t: Table, lo: nat, c: seq<Block>, num: nat)
    requires Synced(u, t, lo, c) && Stepped(t) && num >= 1
    ensures (forall from | from != NoHash && Accepted(t, from, c) :: Arrives(u, t, c, num, from)) <==>
      ShortStrays(t, c, num)
  {
    if ShortStrays(t, c, num) {
      forall from | from != NoHash && Accepted(t, from, c) ensures Arrives(u, t, c, num, from) {
        RequestResult(u, t, lo, c, num, from);
        var n := ArrivesOnChain(u, t, lo, c, num, Min(ForkHeight(t, from, c) + num, |c| - 1));
        assert Poll(u, t, c, num, from, n + 1) == Last(c).hash;
      }
    } else {
      var k: nat :| Strayed(t, c, k) && |ForkWalk(t, c[k].hash)| >= num;
      var j := LongStrayLoops(u, t, lo, c, num, k);
      assert Fits(u, c[j]);
    }
  }

  /** From start to end: whatever state the sync task is in, once it has caught up with
      the base chain, the game processes can catch up, too, if and only if the stored
      side branches leave no long strays. */
  lemma {:induction false} SyncThenCatchUp(u: Tree, cfg: Config, origin: Option<Hash>, s: State, c: seq<Block>)
    requires SyncInv(u, cfg, origin, s) && OnChain(u, s.t, c) && GoodOrEmpty(u, s.t)
    requires IsChain(u, c) && |c| <= 0x1_0000_0000
    ensures var t := RunToTip(u, cfg, origin, s, c).t;
      && Sound(u, t) && Stepped(t)
      && ((forall from | from != NoHash && Accepted(t, from, c) :: Arrives(u, t, c, cfg.range, from)) <==>
            ShortStrays(t, c, cfg.range))
  {
    hide RunToTip, UniqueSlots, Contiguous, Grounded, Bottomed, MainIs, Follows, Accepted, Arrives, ShortStrays, TipOf;
    var r := RunToTip(u, cfg, origin, s, c);
    var lo := SyncedSteady(u, cfg, origin, r, c);
    SoundIsStepped(u, r.t);
    CatchUpTheorem(u, r.t, lo, c, cfg.range);
  }

  /** How stray blocks come about: an import that jumps over a stored side branch
      leaves it where it is, with the fork walks it had. */
  lemma ImportLeavesStrays(u: Tree, t: Table, lo: nat, tip: Hash, b: Block, x: Hash, c: seq<Block>)
    requires Good(u, t, lo, tip) && Fits(u, b) && b.hash !in t && Descends(u, b.hash, tip) && u[tip].height < b.height
    requires OffMain(t, x) && Descends(u, b.hash, x) && IsChain(u, c) && b.height < |c| && c[b.height].hash == b.hash
    ensures ImportTip(u, t, b).Imported?
    ensures var t' := ImportTip(u, t, b).table;
      && Stepped(t) && Stepped(t') && Strayed(t', c, u[x].height) && c[u[x].height].hash == x
      && ForkWalk(t', x) == ForkWalk(t, x)
  {
    hide UniqueSlots, Contiguous, Grounded, Bottomed, ImportTip;
    ImportGood(u, t, lo, tip, lo, b);
    ImportKeepsWalks(u, t, b, x);
    ChainAncestor(u, c, b.height, u[x].height);
    assert Fits(u, c[b.height]);
  }
}
