/** The notification protocol: which attach and detach messages PushZmqBlocks
    sends, and why they always are a legal walk in the block tree. */
module Notify {
  import opened BlockTree
  import opened ChainTable
  import opened Reorg

  datatype Msg = Attach(blk: Block) | Detach(blk: Block)

  /** Where a game process at block pos ends up; None if it can not follow. */
  function Walk(pos: Hash, msgs: seq<Msg>): Option<Hash>
    decreases |msgs|
  {
    if msgs == [] then Some(pos)
    else match msgs[0]
      case Attach(b) => if b.parent == pos then Walk(b.hash, msgs[1..]) else None
      case Detach(b) => if b.hash == pos then Walk(b.parent, msgs[1..]) else None
  }

  function Detaches(bs: seq<Block>): seq<Msg> { seq(|bs|, i requires 0 <= i < |bs| => Detach(bs[i])) }

  function Attaches(bs: seq<Block>): seq<Msg> { seq(|bs|, i requires 0 <= i < |bs| => Attach(bs[i])) }

  function Reversed(bs: seq<Block>): seq<Block> { seq(|bs|, i requires 0 <= i < |bs| => bs[|bs| - 1 - i]) }

  ghost predicate LinkedDown(pos: Hash, bs: seq<Block>) {
    && (bs != [] ==> bs[0].hash == pos)
    && (forall i, j | 0 <= i && j == i + 1 < |bs| :: bs[i].parent == bs[j].hash)
  }

  ghost predicate LinkedUp(pos: Hash, bs: seq<Block>) {
    && (bs != [] ==> bs[0].parent == pos)
    && (forall i, j | 0 <= i && j == i + 1 < |bs| :: bs[j].parent == bs[i].hash)
  }

  lemma {:induction false} WalkConcat(pos: Hash, a: seq<Msg>, b: seq<Msg>, mid: Hash)
    requires Walk(pos, a) == Some(mid)
    ensures Walk(pos, a + b) == Walk(mid, b)
    decreases |a|
  {
    if a == [] {
      assert a + b == b;
    } else {
      assert (a + b)[1..] == a[1..] + b;
      WalkConcat(match a[0] case Attach(x) => x.hash case Detach(x) => x.parent, a[1..], b, mid);
    }
  }

  lemma {:induction false} DetachWalk(pos: Hash, bs: seq<Block>)
    requires LinkedDown(pos, bs)
    ensures Walk(pos, Detaches(bs)) == Some(if bs == [] then pos else bs[|bs| - 1].parent)
    decreases |bs|
  {
    if bs != [] {
      assert Detaches(bs)[1..] == Detaches(bs[1..]);
      DetachWalk(bs[0].parent, bs[1..]);
    }
  }

  lemma {:induction false} AttachWalk(pos: Hash, bs: seq<Block>)
    requires LinkedUp(pos, bs)
    ensures Walk(pos, Attaches(bs)) == Some(if bs == [] then pos else bs[|bs| - 1].hash)
    decreases |bs|
  {
    if bs != [] {
      assert Attaches(bs)[1..] == Attaches(bs[1..]);
      AttachWalk(bs[0].hash, bs[1..]);
    }
  }

  // ----- PushZmqBlocks

  /** What PushZmqBlocks does: its result and messages, a failed CHECK, or
      undefined behaviour (the last element of an empty vector). */
  datatype Push =
    | Pushed(ok: bool, msgs: seq<Msg>, detach: seq<Block>, attach: seq<Block>)
    | CheckFailed
    | Undefined

  /** Conversion to a 32-bit unsigned. */
  function U32(x: int): (r: nat)
    ensures r < 0x1_0000_0000 && (x - r) % 0x1_0000_0000 == 0
    ensures 0 <= x < 0x1_0000_0000 ==> r == x
  {
    x % 0x1_0000_0000
  }

  /** Subtraction on 64-bit unsigneds. */
  function MinusOne(h: nat): (r: nat)
    ensures h > 0 ==> r + 1 == h
    ensures h == 0 ==> r + 1 == 0x1_0000_0000_0000_0000
  {
    if h == 0 then 0xFFFF_FFFF_FFFF_FFFF else h - 1
  }

  function Last(bs: seq<Block>): Block
    requires bs != []
  {
    bs[|bs| - 1]
  }

  /** The blocks above a height. */
  function Above(bs: seq<Block>, h: nat): seq<Block> {
    if bs == [] then []
    else (if bs[0].height > h then [bs[0]] else []) + Above(bs[1..], h)
  }

  /** The calls to the base chain are answered from the snapshots cf (height of
      the from block), ct (height of the to block) and cr (block range). */
  ghost function PushZmqBlocks(u: Tree, t: Table, from: Hash, to: Hash, attaches: seq<Block>, num: nat,
                               cf: seq<Block>, ct: seq<Block>, cr: seq<Block>): Push
    requires Sound(u, t)
  {
    SoundIsStepped(u, t);
    if to != NoHash && attaches != [] then CheckFailed
    else if from == NoHash then Pushed(true, Attaches(attaches), [], [])
    else if LowestHeight(t) < 0 then CheckFailed
    else if from !in t then
      var h := HeightOf(cf, from);
      if h == -1 || h >= LowestHeight(t) then Pushed(false, [], [], [])
      else PushFromFork(t, [], h, from, to, attaches, num, ct, cr)
    else
      var detach := ForkWalk(t, from);
      if detach == [] then PushFromFork(t, [], t[from].blk.height, from, to, attaches, num, ct, cr)
      else PushFromFork(t, detach, MinusOne(Last(detach).height), Last(detach).parent, to, attaches, num, ct, cr)
  }

  /** The part of PushZmqBlocks after the fork point is known. */
  ghost function PushFromFork(t: Table, detach: seq<Block>, forkHeight: nat, forkPoint: Hash, to: Hash,
                              attaches: seq<Block>, num: nat, ct: seq<Block>, cr: seq<Block>): Push
  {
    var toHeight := if to == NoHash then -1 else HeightOf(ct, to);
    if to != NoHash && (toHeight == -1 || toHeight == forkHeight) then Pushed(false, Detaches(detach), detach, [])
    else if to != NoHash && toHeight < forkHeight then PushDown(detach, forkHeight, forkPoint, toHeight, num, cr)
    else if attaches != [] then PushGiven(detach, forkHeight, forkPoint, attaches)
    else PushQueried(t, detach, forkHeight, forkPoint, if to == NoHash then TipHeight(t) else toHeight, num, cr)
  }

  /** More detaches, down to a main-chain block below the fork point. */
  function PushDown(detach: seq<Block>, forkHeight: nat, forkPoint: Hash, toHeight: nat, num: nat,
                    cr: seq<Block>): Push
    requires toHeight < forkHeight
  {
    var n := Min(num, U32(forkHeight - toHeight));
    var toDetach := Range(cr, forkHeight - n + 1, n);
    if toDetach == [] then Undefined
    else if Last(toDetach).hash != forkPoint then Pushed(false, Detaches(detach), detach, [])
    else Pushed(true, Detaches(detach) + Detaches(Reversed(toDetach)), detach + Reversed(toDetach), [])
  }

  /** Attaches that were passed in with a tip update. */
  function PushGiven(detach: seq<Block>, forkHeight: nat, forkPoint: Hash, attaches: seq<Block>): Push
    requires attaches != []
  {
    if detach != [] && Last(attaches).hash == Last(detach).parent then Pushed(true, Detaches(detach), detach, [])
    else if exists b | b in attaches :: b.height == forkHeight + 1 && b.parent != forkPoint then CheckFailed
    else if forall b | b in attaches :: b.height != forkHeight + 1 then CheckFailed
    else Pushed(true, Detaches(detach) + Attaches(Above(attaches, forkHeight)), detach, [])
  }

  /** Attaches that are queried from the base chain. */
  ghost function PushQueried(t: Table, detach: seq<Block>, forkHeight: nat, forkPoint: Hash, target: int, num: nat,
                             cr: seq<Block>): Push
  {
    if target < forkHeight then CheckFailed
    else
      var queried := Range(cr, forkHeight + 1, Min(num, U32(target - forkHeight)));
      if queried == [] then Pushed(true, Detaches(detach), detach, [])
      else if queried[0].parent != forkPoint then Pushed(false, Detaches(detach), detach, [])
      else if Last(queried).height >= LowestHeight(t) && Last(queried).hash !in t
        then Pushed(false, Detaches(detach), detach, [])
      else if Last(queried).height >= LowestHeight(t) && t[Last(queried).hash].blk.height != Last(queried).height
        then CheckFailed
      else Pushed(true, Detaches(detach) + Attaches(queried), detach, queried)
  }

  // ----- game_sendupdates3

  /** The block that game_sendupdates3 reports as reached. */
  function ToBlock(from: Hash, p: Push): Hash
    requires p.Pushed?
  {
    if p.attach != [] then Last(p.attach).hash
    else if p.detach != [] then Last(p.detach).parent
    else from
  }

  /** The messages of a request are the reported detaches and then the reported
      attaches, and lead from the requested block to the reported one. */
  ghost predicate LegalAnswer(from: Hash, p: Push) {
    && p.Pushed?
    && p.msgs == Detaches(p.detach) + Attaches(p.attach)
    && Walk(from, p.msgs) == Some(ToBlock(from, p))
  }

  lemma LegalWalk(from: Hash, p: Push, forkPoint: Hash)
    requires p.Pushed? && p.msgs == Detaches(p.detach) + Attaches(p.attach)
    requires LinkedDown(from, p.detach) && LinkedUp(forkPoint, p.attach)
    requires forkPoint == if p.detach == [] then from else Last(p.detach).parent
    ensures LegalAnswer(from, p)
  {
    DetachWalk(from, p.detach);
    AttachWalk(forkPoint, p.attach);
    WalkConcat(from, Detaches(p.detach), Attaches(p.attach), forkPoint);
  }

  lemma RangeLinked(u: Tree, c: seq<Block>, start: nat, count: nat)
    requires IsChain(u, c) && Range(c, start, count) != []
    ensures var q := Range(c, start, count);
      && LinkedUp(q[0].parent, q) && LinkedDown(Last(q).hash, Reversed(q))
      && (forall i | 0 <= i < |q| :: Fits(u, q[i]) && q[i].height == start + i)
      && Reversed(q) != [] && Last(Reversed(q)).parent == q[0].parent
  {
  }

  /** When the detach query towards the to block comes back empty. */
  predicate DetachQueryEmpty(forkHeight: int, to: Hash, num: nat, ct: seq<Block>, cr: seq<Block>) {
    to != NoHash && 0 <= HeightOf(ct, to) < forkHeight &&
    var n := Min(num, U32(forkHeight - HeightOf(ct, to)));
    n == 0 || forkHeight - n + 1 >= |cr|
  }

  lemma DetachesConcat(a: seq<Block>, b: seq<Block>)
    ensures Detaches(a + b) == Detaches(a) + Detaches(b)
  {
  }

  lemma NoAttach(pos: Hash)
    ensures Attaches([]) == [] && LinkedUp(pos, []) && Detaches([]) == [] && LinkedDown(pos, [])
  {
  }

  /** If a request fails, exactly the detaches to the fork point have been sent. */
  predicate StopsAtFork(p: Push, detach: seq<Block>) { p.Pushed? && !p.ok ==> p.detach == detach && p.attach == [] }

  /** What is attached ends at a stored block, or below height L. */
  ghost predicate EndsKnown(t: Table, lo: nat, p: Push) {
    p.Pushed? && p.attach != [] ==> Last(p.attach).hash in t || Last(p.attach).height < lo
  }

  lemma DownLegal(u: Tree, from: Hash, detach: seq<Block>, forkHeight: nat, forkPoint: Hash, toHeight: nat,
                  num: nat, cr: seq<Block>)
    requires IsChain(u, cr) && toHeight < forkHeight
    requires LinkedDown(from, detach) && forkPoint == if detach == [] then from else Last(detach).parent
    ensures var p := PushDown(detach, forkHeight, forkPoint, toHeight, num, cr);
      && (p.Undefined? <==>
            var n := Min(num, U32(forkHeight - toHeight)); n == 0 || forkHeight - n + 1 >= |cr|)
      && (!p.Undefined? ==> LegalAnswer(from, p)) && StopsAtFork(p, detach)
      && (p.Pushed? ==> p.attach == [])
  {
    hide LegalAnswer, IsChain, LinkedDown, LinkedUp, Reversed, Detaches;
    var p := PushDown(detach, forkHeight, forkPoint, toHeight, num, cr);
    var n := Min(num, U32(forkHeight - toHeight));
    var q := Range(cr, forkHeight - n + 1, n);
    if q != [] && Last(q).hash == forkPoint {
      RangeLinked(u, cr, forkHeight - n + 1, n);
      JoinDown(from, detach, Reversed(q));
      DetachesConcat(detach, Reversed(q));
      NoAttach(Last(p.detach).parent);
      LegalWalk(from, p, Last(p.detach).parent);
    } else if q != [] {
      NoAttach(forkPoint);
      LegalWalk(from, p, forkPoint);
    }
  }

  lemma QueriedLegal(u: Tree, t: Table, from: Hash, detach: seq<Block>, forkHeight: nat, forkPoint: Hash,
                     target: int, num: nat, cr: seq<Block>)
    requires Sound(u, t) && IsChain(u, cr) && forkHeight <= target
    requires LinkedDown(from, detach) && forkPoint == if detach == [] then from else Last(detach).parent
    ensures var p := PushQueried(t, detach, forkHeight, forkPoint, target, num, cr);
      p.Pushed? && LegalAnswer(from, p) && StopsAtFork(p, detach)
      && (LowestHeight(t) >= 0 ==> EndsKnown(t, LowestHeight(t), p))
  {
    hide LegalAnswer, IsChain;
    var p := PushQueried(t, detach, forkHeight, forkPoint, target, num, cr);
    var q := Range(cr, forkHeight + 1, Min(num, U32(target - forkHeight)));
    if q != [] {
      RangeLinked(u, cr, forkHeight + 1, Min(num, U32(target - forkHeight)));
      assert Fits(u, Last(q));
      if Last(q).hash in t { assert Fits(u, t[Last(q).hash].blk); }
    }
    assert p.msgs == Detaches(p.detach) + Attaches(p.attach);
    LegalWalk(from, p, forkPoint);
  }

  lemma FromForkLegal(u: Tree, t: Table, from: Hash, detach: seq<Block>, forkHeight: nat, forkPoint: Hash,
                      to: Hash, num: nat, ct: seq<Block>, cr: seq<Block>)
    requires Sound(u, t) && IsChain(u, cr) && forkHeight <= TipHeight(t)
    requires LinkedDown(from, detach) && forkPoint == if detach == [] then from else Last(detach).parent
    ensures var p := PushFromFork(t, detach, forkHeight, forkPoint, to, [], num, ct, cr);
      && (p.Undefined? <==> DetachQueryEmpty(forkHeight, to, num, ct, cr))
      && (!p.Undefined? ==> LegalAnswer(from, p)) && StopsAtFork(p, detach)
      && (LowestHeight(t) >= 0 ==> EndsKnown(t, LowestHeight(t), p))
  {
    hide LegalAnswer, IsChain, LowestHeight, HeightOf, PushDown, PushQueried;
    var toHeight := if to == NoHash then -1 else HeightOf(ct, to);
    if to != NoHash && 0 <= toHeight < forkHeight {
      DownLegal(u, from, detach, forkHeight, forkPoint, toHeight, num, cr);
    } else if to != NoHash && (toHeight == -1 || toHeight == forkHeight) {
      var p := PushFromFork(t, detach, forkHeight, forkPoint, to, [], num, ct, cr);
      assert p.msgs == Detaches(p.detach) + Attaches([]);
      LegalWalk(from, p, forkPoint);
    } else {
      QueriedLegal(u, t, from, detach, forkHeight, forkPoint, if to == NoHash then TipHeight(t) else toHeight, num, cr);
    }
  }

  lemma JoinDown(from: Hash, a: seq<Block>, b: seq<Block>)
    requires LinkedDown(from, a) && b != [] && LinkedDown(b[0].hash, b)
    requires b[0].hash == if a == [] then from else Last(a).parent
    ensures LinkedDown(from, a + b)
  {
  }

  /** The height of the fork point of a request. */
  ghost function ForkHeight(t: Table, from: Hash, cf: seq<Block>): int
    requires Stepped(t)
  {
    if from !in t then HeightOf(cf, from)
    else if ForkWalk(t, from) == [] then t[from].blk.height
    else Last(ForkWalk(t, from)).height - 1
  }

  /** A request is accepted if its block is stored, or is a pruned main-chain block. */
  ghost predicate Accepted(t: Table, from: Hash, cf: seq<Block>) {
    from in t || 0 <= HeightOf(cf, from) < LowestHeight(t)
  }

  /** game_sendupdates3 is always a legal walk: in every steady chainstate and for
      any base snapshots, on success and on every false return, which leaves the game
      process at the fork point.  Attaches end at a block that the next request is accepted
      from, stored or below L.  The one way out is an empty answer to the detach
      query, whose last element the code takes. */
  lemma {:induction false} SendUpdatesLegal(u: Tree, t: Table, lo: nat, tip: Hash, from: Hash, to: Hash, num: nat,
                         cf: seq<Block>, ct: seq<Block>, cr: seq<Block>)
    requires Steady(u, t, lo, tip)
    requires IsChain(u, cf) && IsChain(u, ct) && IsChain(u, cr)
    ensures Stepped(t)
    ensures var p := PushZmqBlocks(u, t, from, to, [], num, cf, ct, cr);
      && (p.Undefined? <==>
            from != NoHash && Accepted(t, from, cf) && DetachQueryEmpty(ForkHeight(t, from, cf), to, num, ct, cr))
      && (!p.Undefined? ==> LegalAnswer(from, p))
      && StopsAtFork(p, if from in t then ForkWalk(t, from) else [])
      && (from != NoHash && !Accepted(t, from, cf) ==> p.Pushed? && !p.ok)
      && EndsKnown(t, lo, p)
  {
    hide UniqueSlots, Contiguous, MainIs, Bottomed, PushFromFork, DetachQueryEmpty, Detaches, Attaches, LegalAnswer,
      IsChain, ForkHeight, Accepted, ForkWalk, Sound, TipHeight, LowestHeight;
    SoundIsStepped(u, t);
    Queries(u, t, lo, tip);
    if from != NoHash && Accepted(t, from, cf) {
      hide PushZmqBlocks;
      AcceptedValue(u, t, lo, tip, from, to, num, cf, ct, cr);
      var detach := if from in t then ForkWalk(t, from) else [];
      var forkPoint := if detach == [] then from else Last(detach).parent;
      FromForkLegal(u, t, from, detach, ForkHeight(t, from, cf), forkPoint, to, num, ct, cr);
    } else {
      NotAccepted(u, t, lo, tip, from, to, num, cf, ct, cr);
      NoAttach(from);
      LegalWalk(from, PushZmqBlocks(u, t, from, to, [], num, cf, ct, cr), from);
    }
  }

  lemma NotAccepted(u: Tree, t: Table, lo: nat, tip: Hash, from: Hash, to: Hash, num: nat,
                    cf: seq<Block>, ct: seq<Block>, cr: seq<Block>)
    requires Steady(u, t, lo, tip) && (from == NoHash || !Accepted(t, from, cf))
    ensures PushZmqBlocks(u, t, from, to, [], num, cf, ct, cr) == Pushed(from == NoHash, [], [], [])
    ensures from != NoHash ==> from !in t
  {
    hide UniqueSlots, Contiguous, MainIs, Bottomed, PushFromFork;
    Queries(u, t, lo, tip);
  }

  /** What an accepted request leads to: the detaches to the fork point, which is linked
      and not above the tip, and what follows from there. */
  lemma AcceptedValue(u: Tree, t: Table, lo: nat, tip: Hash, from: Hash, to: Hash, num: nat,
                      cf: seq<Block>, ct: seq<Block>, cr: seq<Block>)
    requires Steady(u, t, lo, tip) && Stepped(t) && from != NoHash && Accepted(t, from, cf)
    ensures var h := ForkHeight(t, from, cf);
      var d := if from in t then ForkWalk(t, from) else [];
      && 0 <= h <= TipHeight(t) && LinkedDown(from, d)
      && PushZmqBlocks(u, t, from, to, [], num, cf, ct, cr) ==
           PushFromFork(t, d, h, if d == [] then from else Last(d).parent, to, [], num, ct, cr)
  {
    hide UniqueSlots, Contiguous, MainIs, Bottomed, PushFromFork, HeightOf, ForkWalk, TipHeight, LowestHeight;
    Queries(u, t, lo, tip);
    if from in t { StoredFork(u, t, lo, tip, from); }
  }

  lemma StoredFork(u: Tree, t: Table, lo: nat, tip: Hash, from: Hash)
    requires Steady(u, t, lo, tip) && Stepped(t) && from in t
    ensures tip in u && lo <= u[tip].height
    ensures var d := ForkWalk(t, from);
      && LinkedDown(from, d)
      && (if d == [] then t[from].blk.height <= u[tip].height else 0 < Last(d).height <= u[tip].height + 1)
  {
    hide UniqueSlots, Contiguous, Bottomed, ForkWalk;
    ForkEndLow(u, t, lo, tip, from);
    WalkEnd(u, t, from);
    if OffMain(t, from) { WalkIsAncestry(u, t, from); }
  }

  /** Before the first import, the request aborts on CHECK_GE (pruningDepth, 0). */
  lemma SendUpdatesEmpty(u: Tree, from: Hash, to: Hash, num: nat, cf: seq<Block>, ct: seq<Block>, cr: seq<Block>)
    requires WellFormed(u)
    ensures var p := PushZmqBlocks(u, map[], from, to, [], num, cf, ct, cr);
      if from == NoHash then LegalAnswer(from, p) else p.CheckFailed?
  {
  }

  // ----- Tip updates

  /** In a list of rising heights the blocks above h are a suffix. */
  lemma {:induction false} AboveIsSuffix(bs: seq<Block>, h: nat)
    requires bs != [] && bs[0].height <= h + 1 <= Last(bs).height
    requires forall i | 0 <= i < |bs| :: bs[i].height == bs[0].height + i
    ensures Above(bs, h) == bs[h + 1 - bs[0].height..]
    decreases |bs|
  {
    if bs[0].height <= h {
      AboveIsSuffix(bs[1..], h);
    } else {
      AllAbove(bs, h);
    }
  }

  lemma {:induction false} AllAbove(bs: seq<Block>, h: nat)
    requires forall i | 0 <= i < |bs| :: bs[i].height > h
    ensures Above(bs, h) == bs
  {
    if bs != [] { AllAbove(bs[1..], h); }
  }

  /** A list of linked, authentic blocks that ends at tip, from height s on. */
  ghost predicate PathTo(u: Tree, bs: seq<Block>, s: nat, tip: Hash)
    requires WellFormed(u)
  {
    && bs != [] && Last(bs).hash == tip
    && (forall i | 0 <= i < |bs| :: Fits(u, bs[i]) && bs[i].height == s + i && Descends(u, tip, bs[i].hash))
    && (forall i, j | 0 <= i && j == i + 1 < |bs| :: bs[j].parent == bs[i].hash)
  }

  /** The messages for a tip change lead from the old tip to exactly the new tip,
      detaching first, and no block is both detached and attached. */
  ghost predicate TipMessages(msgs: seq<Msg>, oldTip: Hash, newTip: Hash) {
    && Walk(oldTip, msgs) == Some(newTip)
    && exists d, a :: msgs == Detaches(d) + Attaches(a) && Hashes(d) !! Hashes(a)
  }

  lemma TipPushLegal(u: Tree, t: Table, lo: nat, tip: Hash, oldTip: Hash, attaches: seq<Block>, s: nat,
                     c: seq<Block>)
    requires Steady(u, t, lo, tip) && Stepped(t)
    requires oldTip in t && oldTip != NoHash && oldTip != tip && Descends(u, oldTip, Lowest(u, lo, tip))
    requires PathTo(u, attaches, s, tip) && s <= u[ForkEndIn(u, t, lo, tip, oldTip)].height + 1
    ensures var p := PushZmqBlocks(u, t, oldTip, NoHash, attaches, 0, c, c, c);
      p.Pushed? && p.ok && TipMessages(p.msgs, oldTip, tip)
  {
    hide UniqueSlots, Contiguous, Bottomed, MainIs, PushGiven, TipMessages, PathTo;
    Queries(u, t, lo, tip);
    ForkFacts(u, t, lo, tip, oldTip);
    assert Fits(u, t[oldTip].blk);
    GivenLegal(u, t, lo, tip, oldTip, attaches, s);
  }

  lemma PathNonEmpty(u: Tree, bs: seq<Block>, s: nat, tip: Hash)
    requires WellFormed(u) && PathTo(u, bs, s, tip)
    ensures bs != [] && Last(bs).hash == tip
  {
  }

  /** The checks on the child of the fork point, if it is the one block of its height. */
  lemma GivenPasses(d: seq<Block>, h: nat, e: Hash, bs: seq<Block>, k: nat)
    requires k < |bs| && bs[k].height == h + 1 && bs[k].parent == e
    requires forall b | b in bs :: b.height == h + 1 ==> b == bs[k]
    requires d != [] ==> Last(bs).hash != Last(d).parent
    ensures PushGiven(d, h, e, bs) == Pushed(true, Detaches(d) + Attaches(Above(bs, h)), d, [])
  {
    hide Above, Attaches, Detaches;
    assert bs[k] in bs;
  }

  /** The attaches that are sent are the ones from the child of the fork point on. */
  lemma GivenValue(u: Tree, bs: seq<Block>, s: nat, tip: Hash, e: Hash, d: seq<Block>)
    requires WellFormed(u) && PathTo(u, bs, s, tip) && Descends(u, tip, e) && e != tip && s <= u[e].height + 1
    requires d != [] ==> Last(d).parent == e
    ensures bs != [] && u[e].height + 1 - s < |bs|
    ensures LinkedUp(e, bs[u[e].height + 1 - s..]) && Last(bs[u[e].height + 1 - s..]).hash == tip
    ensures PushGiven(d, u[e].height, e, bs) ==
      Pushed(true, Detaches(d) + Attaches(bs[u[e].height + 1 - s..]), d, [])
  {
    hide PathTo, Above, Attaches, Detaches, PushGiven;
    var k := u[e].height + 1 - s;
    PathNonEmpty(u, bs, s, tip);
    PathHeights(u, bs, s, tip);
    ForkBlock(u, bs, s, tip, e);
    AboveIsSuffix(bs, u[e].height);
    GivenPasses(d, u[e].height, e, bs, k);
  }

  lemma PathHeights(u: Tree, bs: seq<Block>, s: nat, tip: Hash)
    requires WellFormed(u) && PathTo(u, bs, s, tip)
    ensures forall i | 0 <= i < |bs| :: bs[i].height == s + i
  {
  }

  lemma GivenLegal(u: Tree, t: Table, lo: nat, tip: Hash, oldTip: Hash, attaches: seq<Block>, s: nat)
    requires Steady(u, t, lo, tip) && Stepped(t)
    requires oldTip in t && oldTip != tip && Descends(u, oldTip, Lowest(u, lo, tip))
    requires PathTo(u, attaches, s, tip) && s <= u[ForkEndIn(u, t, lo, tip, oldTip)].height + 1
    ensures attaches != []
    ensures var e := ForkEnd(t, oldTip);
      var p := PushGiven(ForkWalk(t, oldTip), u[e].height, e, attaches);
      p.Pushed? && p.ok && TipMessages(p.msgs, oldTip, tip)
  {
    hide UniqueSlots, Contiguous, Bottomed, MainIs, ForkWalk, ForkEnd, PathTo;
    ForkFacts(u, t, lo, tip, oldTip);
    PathNonEmpty(u, attaches, s, tip);
    var e := ForkEnd(t, oldTip);
    var d := ForkWalk(t, oldTip);
    DetachWalk(oldTip, d);
    if tip == e {
      assert Detaches(d) == Detaches(d) + Attaches([]);
      assert Hashes([]) == {};
    } else {
      hide PushGiven, TipMessages;
      GivenValue(u, attaches, s, tip, e, d);
      var k := u[e].height + 1 - s;
      var a := attaches[k..];
      AttachWalk(e, a);
      DisjointHashes(u, t, lo, tip, oldTip, attaches, s, k);
      TipWalk(oldTip, d, e, a, tip);
    }
  }

  lemma TipWalk(oldTip: Hash, d: seq<Block>, e: Hash, a: seq<Block>, tip: Hash)
    requires Walk(oldTip, Detaches(d)) == Some(e) && Walk(e, Attaches(a)) == Some(tip) && Hashes(d) !! Hashes(a)
    ensures TipMessages(Detaches(d) + Attaches(a), oldTip, tip)
  {
    hide Walk, Detaches, Attaches;
    WalkConcat(oldTip, Detaches(d), Attaches(a), e);
  }

  /** The walk from a block that descends from main[L] to its fork point. */
  lemma ForkFacts(u: Tree, t: Table, lo: nat, tip: Hash, h: Hash)
    requires Steady(u, t, lo, tip) && Stepped(t) && h in t && Descends(u, h, Lowest(u, lo, tip))
    ensures var e := ForkEnd(t, h); var w := ForkWalk(t, h);
      && LinkedDown(h, w) && (if w == [] then e == h else Last(w).parent == e)
      && OnMain(t, e) && Descends(u, tip, e) && lo <= u[e].height && u[e].height + |w| == u[h].height
      && (w != [] ==> Last(w).height == u[e].height + 1)
  {
    var e := ForkEnd(t, h);
    ForkEndOnMain(u, t, lo, tip, h);
    if OffMain(t, h) { WalkIsAncestry(u, t, h); }
    assert Between(u, e, lo, tip);
  }

  /** The fork point of the old tip, as a block of the tree. */
  ghost function ForkEndIn(u: Tree, t: Table, lo: nat, tip: Hash, h: Hash): (e: Hash)
    requires Steady(u, t, lo, tip) && Stepped(t) && h in t && Descends(u, h, Lowest(u, lo, tip))
    ensures e in u && e == ForkEnd(t, h) && lo <= u[e].height
  {
    ForkEndOnMain(u, t, lo, tip, h);
    ForkEnd(t, h)
  }

  /** The block above the fork point in a path is the only one of its height, and
      is a child of the fork point. */
  lemma ForkBlock(u: Tree, bs: seq<Block>, s: nat, tip: Hash, e: Hash)
    requires WellFormed(u) && PathTo(u, bs, s, tip) && Descends(u, tip, e) && e != tip && s <= u[e].height + 1
    ensures var k := u[e].height + 1 - s;
      && k < |bs| && bs[k].height == u[e].height + 1 && bs[k].parent == e
      && (forall b | b in bs :: b.height == u[e].height + 1 ==> b == bs[k])
      && bs[0].height == s && Last(bs).height == s + |bs| - 1
      && LinkedUp(e, bs[k..])
  {
    var k := u[e].height + 1 - s;
    assert bs[|bs| - 1].height == s + |bs| - 1;
    DescendsParent(u, tip, e);
    var b := bs[k];
    assert Fits(u, b) && Descends(u, tip, b.hash);
    DescendsLinear(u, tip, b.hash, e);
    DescendsParent(u, b.hash, e);
  }

  lemma DisjointHashes(u: Tree, t: Table, lo: nat, tip: Hash, oldTip: Hash, bs: seq<Block>, s: nat, k: nat)
    requires Steady(u, t, lo, tip) && Stepped(t) && oldTip in t && PathTo(u, bs, s, tip)
    requires k <= |bs| && lo <= s + k
    ensures Hashes(ForkWalk(t, oldTip)) !! Hashes(bs[k..])
  {
    forall b | b in bs[k..] ensures OnMain(t, b.hash) {
      var i :| 0 <= i < |bs[k..]| && bs[k..][i] == b;
      assert bs[k + i] == b;
      assert Between(u, b.hash, lo, tip);
    }
    if OffMain(t, oldTip) {
      WalkIsAncestry(u, t, oldTip);
    }
    assert forall b | b in ForkWalk(t, oldTip) :: OffMain(t, b.hash);
  }
}
