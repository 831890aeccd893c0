/** Exactly what game_sendupdates3 answers in a steady chainstate, for any snapshots of the
    base chain: how far it goes towards the to block, and when it fails. */
module Requests {
  import opened BlockTree
  import opened ChainTable
  import opened Reorg
  import opened Notify

  /** A request from a block from which it is accepted, with snapshots for its answers. */
  ghost predicate Asked(u: Tree, t: Table, lo: nat, tip: Hash, from: Hash, cf: seq<Block>, ct: seq<Block>,
                        cr: seq<Block>)
  {
    && Steady(u, t, lo, tip) && Stepped(t) && IsChain(u, cf) && IsChain(u, ct) && IsChain(u, cr)
    && from != NoHash && Accepted(t, from, cf)
  }

  /** The block to which the request detaches. */
  ghost function ForkPoint(t: Table, from: Hash): Hash
    requires Stepped(t)
  {
    if from in t then ForkEnd(t, from) else from
  }

  /** The detaches to the fork point. */
  ghost function ToFork(t: Table, from: Hash): seq<Block>
    requires Stepped(t)
  {
    if from in t then ForkWalk(t, from) else []
  }

  lemma ForkPointFacts(u: Tree, t: Table, lo: nat, tip: Hash, from: Hash, cf: seq<Block>, ct: seq<Block>,
                       cr: seq<Block>)
    requires Asked(u, t, lo, tip, from, cf, ct, cr)
    ensures var e := ForkPoint(t, from); var d := ToFork(t, from);
      && e in u && ForkHeight(t, from, cf) == u[e].height && u[e].height <= TipHeight(t)
      && e == (if d == [] then from else Last(d).parent)
  {
    hide UniqueSlots, Contiguous, Bottomed, MainIs, ForkWalk, ForkEnd, TipHeight, LowestHeight, IsChain;
    Queries(u, t, lo, tip);
    if from in t {
      WalkEnd(u, t, from);
      ForkEndLow(u, t, lo, tip, from);
    } else {
      OnSnapshot(u, cf, from);
    }
  }

  lemma OnSnapshot(u: Tree, c: seq<Block>, h: Hash)
    requires IsChain(u, c) && HeightOf(c, h) >= 0
    ensures h in u && u[h].height == HeightOf(c, h)
  {
    assert Fits(u, c[HeightOf(c, h)]);
  }

  /** A to block that is not on the base chain, or at the height of the fork point: the request
      fails, and the detaches to the fork point are all that is sent. */
  lemma StopOutcome(u: Tree, t: Table, lo: nat, tip: Hash, from: Hash, to: Hash, num: nat,
                    cf: seq<Block>, ct: seq<Block>, cr: seq<Block>)
    requires Asked(u, t, lo, tip, from, cf, ct, cr) && to != NoHash
    requires (forall b | b in ct :: b.hash != to) || HeightOf(ct, to) == ForkHeight(t, from, cf)
    ensures var p := PushZmqBlocks(u, t, from, to, [], num, cf, ct, cr);
      && p.Pushed? && !p.ok && p.detach == ToFork(t, from) && p.attach == []
      && p.msgs == Detaches(ToFork(t, from))
  {
    hide UniqueSlots, Contiguous, Bottomed, MainIs, ForkWalk, TipHeight, LowestHeight, IsChain, PushZmqBlocks, HeightOf,
      Detaches, Attaches;
    AcceptedValue(u, t, lo, tip, from, to, num, cf, ct, cr);
    if HeightOf(ct, to) >= 0 { assert ct[HeightOf(ct, to)] in ct; }
  }

  /** Without a to block, or with one above the fork point, at most num blocks are attached, up
      to the tip or the to block, as many of them as the base chain has.  They are all attached
      if the first one stands on the fork point and the last one is stored or below L, and none
      otherwise. */
  lemma UpOutcome(u: Tree, t: Table, lo: nat, tip: Hash, from: Hash, to: Hash, num: nat,
                  cf: seq<Block>, ct: seq<Block>, cr: seq<Block>)
    requires Asked(u, t, lo, tip, from, cf, ct, cr)
    requires to == NoHash || HeightOf(ct, to) > ForkHeight(t, from, cf)
    ensures tip in u && ForkHeight(t, from, cf) >= 0
    ensures var p := PushZmqBlocks(u, t, from, to, [], num, cf, ct, cr);
      var h := ForkHeight(t, from, cf);
      var target := if to == NoHash then u[tip].height else HeightOf(ct, to);
      var q := Range(cr, h + 1, Min(num, U32(target - h)));
      && p.Pushed? && p.detach == ToFork(t, from)
      && (p.ok <==>
            q == [] || (q[0].parent == ForkPoint(t, from) && (Last(q).height < lo || Last(q).hash in t)))
      && p.attach == (if p.ok then q else [])
  {
    hide UniqueSlots, Contiguous, Bottomed, MainIs, ForkWalk, ForkEnd, TipHeight, LowestHeight, IsChain, PushZmqBlocks,
      HeightOf, Detaches, Attaches, PushQueried, ForkHeight, Accepted, Range;
    AcceptedValue(u, t, lo, tip, from, to, num, cf, ct, cr);
    ForkPointFacts(u, t, lo, tip, from, cf, ct, cr);
    Queries(u, t, lo, tip);
    var h := ForkHeight(t, from, cf);
    var target := if to == NoHash then u[tip].height else HeightOf(ct, to);
    QueriedOutcome(u, t, lo, ToFork(t, from), h, ForkPoint(t, from), target, num, cr);
  }

  lemma QueriedOutcome(u: Tree, t: Table, lo: nat, d: seq<Block>, h: nat, e: Hash, target: nat, num: nat,
                       cr: seq<Block>)
    requires Sound(u, t) && LowestHeight(t) == lo && IsChain(u, cr) && h <= target
    ensures var p := PushQueried(t, d, h, e, target, num, cr);
      var q := Range(cr, h + 1, Min(num, U32(target - h)));
      && p.Pushed? && p.detach == d
      && (p.ok <==> q == [] || (q[0].parent == e && (Last(q).height < lo || Last(q).hash in t)))
      && p.attach == (if p.ok then q else [])
  {
    hide LowestHeight, Detaches, Attaches;
    var q := Range(cr, h + 1, Min(num, U32(target - h)));
    if q != [] {
      assert Fits(u, Last(q)) by { RangeLinked(u, cr, h + 1, Min(num, U32(target - h))); }
      if Last(q).hash in t { assert Fits(u, t[Last(q).hash].blk); }
    }
  }

  /** With a to block below the fork point, so many more blocks are detached, top-down, if the
      base chain still has the fork point; otherwise the request stops there. */
  lemma DownOutcome(u: Tree, t: Table, lo: nat, tip: Hash, from: Hash, to: Hash, num: nat,
                    cf: seq<Block>, ct: seq<Block>, cr: seq<Block>)
    requires Asked(u, t, lo, tip, from, cf, ct, cr)
    requires to != NoHash && 0 <= HeightOf(ct, to) < ForkHeight(t, from, cf)
    requires !DetachQueryEmpty(ForkHeight(t, from, cf), to, num, ct, cr)
    ensures var p := PushZmqBlocks(u, t, from, to, [], num, cf, ct, cr);
      var h := ForkHeight(t, from, cf); var d := ToFork(t, from);
      var n := Min(num, U32(h - HeightOf(ct, to)));
      && p.Pushed? && p.attach == []
      && (p.ok <==> HeightOf(cr, ForkPoint(t, from)) >= 0)
      && (if p.ok then n <= h < |cr| && p.detach == d + Reversed(cr[h - n + 1..h + 1]) else p.detach == d)
  {
    hide UniqueSlots, Contiguous, Bottomed, MainIs, ForkWalk, ForkEnd, TipHeight, LowestHeight, IsChain, PushZmqBlocks,
      HeightOf, Detaches, Attaches, PushDown, ForkHeight, Accepted, Reversed;
    AcceptedValue(u, t, lo, tip, from, to, num, cf, ct, cr);
    ForkPointFacts(u, t, lo, tip, from, cf, ct, cr);
    DownQueried(u, ToFork(t, from), ForkHeight(t, from, cf), ForkPoint(t, from), HeightOf(ct, to), num, cr);
  }

  /** A block of known height is on a snapshot exactly at that height. */
  lemma OnlyAtHeight(u: Tree, c: seq<Block>, e: Hash, h: nat)
    requires IsChain(u, c) && WellFormed(u) && e in u && u[e].height == h
    ensures HeightOf(c, e) >= 0 <==> h < |c| && c[h].hash == e
  {
    if HeightOf(c, e) >= 0 { OnSnapshot(u, c, e); }
    if h < |c| && c[h].hash == e { assert c[h] in c; }
  }

  lemma DownQueried(u: Tree, d: seq<Block>, h: nat, e: Hash, toHeight: nat, num: nat, cr: seq<Block>)
    requires IsChain(u, cr) && WellFormed(u) && toHeight < h && e in u && u[e].height == h
    requires var n := Min(num, U32(h - toHeight)); n != 0 && h - n + 1 < |cr|
    ensures var p := PushDown(d, h, e, toHeight, num, cr);
      var n := Min(num, U32(h - toHeight));
      && p.Pushed? && p.attach == []
      && (p.ok <==> HeightOf(cr, e) >= 0)
      && (if p.ok then n <= h < |cr| && p.detach == d + Reversed(cr[h - n + 1..h + 1]) else p.detach == d)
  {
    hide Detaches, Attaches, Reversed, HeightOf, U32, IsChain, Range;
    OnlyAtHeight(u, cr, e, h);
    DistanceBound(h - toHeight);
    DownRange(u, cr, h, Min(num, U32(h - toHeight)));
    LastHeight(u, cr, e, h);
  }

  lemma DownRange(u: Tree, c: seq<Block>, h: nat, n: nat)
    requires 1 <= n <= h && h - n + 1 < |c|
    ensures var q := Range(c, h - n + 1, n);
      q != [] && Last(q) == c[Min(h, |c| - 1)] && (h < |c| ==> q == c[h - n + 1..h + 1])
  {
  }

  /** If a snapshot ends below that height, its last block is another one. */
  lemma LastHeight(u: Tree, c: seq<Block>, e: Hash, h: nat)
    requires IsChain(u, c) && e in u && u[e].height == h
    ensures c != [] && (|c| <= h ==> c[|c| - 1].hash != e)
  {
    assert Fits(u, c[|c| - 1]);
  }

  lemma DistanceBound(x: nat)
    ensures U32(x) <= x
  {
  }
}
