/** The running controller: it sends the block messages and serves requests, each
    method proved against its function in modules Notify and SyncSpec. */
module Controller {
  import opened BlockTree
  import opened ChainTable
  import opened Reorg
  import opened ChainRuns
  import opened ChainstateDb
  import opened Notify
  import opened SyncSpec

  /** A message as sent, with the number of the request it answers, if any. */
  datatype Sent = Sent(request: Option<nat>, msg: Msg)

  function Tagged(request: Option<nat>, msgs: seq<Msg>): seq<Sent> {
    seq(|msgs|, i requires 0 <= i < |msgs| => Sent(request, msgs[i]))
  }

  /** The messages that do not answer a request. */
  function Untagged(out: seq<Sent>): seq<Msg> {
    if out == [] then []
    else
      var last := out[|out| - 1];
      Untagged(out[..|out| - 1]) + (if last.request.None? then [last.msg] else [])
  }

  /** Requests that are served in between do not disturb the untagged stream. */
  lemma {:induction false} UntaggedMore(out: seq<Sent>, request: Option<nat>, msgs: seq<Msg>)
    ensures Untagged(out + Tagged(request, msgs)) == Untagged(out) + (if request.None? then msgs else [])
    decreases |msgs|
  {
    if msgs == [] {
      assert out + Tagged(request, msgs) == out;
    } else {
      var n := |msgs| - 1;
      var all := out + Tagged(request, msgs);
      assert all[..|all| - 1] == out + Tagged(request, msgs[..n]);
      UntaggedMore(out, request, msgs[..n]);
      assert msgs[..n] + [msgs[n]] == msgs;
    }
  }

  /** The socket, as the list of messages sent through it. */
  class Outbox {
    var out: seq<Sent>

    constructor ()
      ensures out == []
    {
      out := [];
    }

    method SendBlocks(attach: bool, blocks: seq<Block>, request: Option<nat>)
      modifies this
      ensures out == old(out) + Tagged(request, if attach then Attaches(blocks) else Detaches(blocks))
    {
      for i := 0 to |blocks|
        invariant out == old(out) + Tagged(request, if attach then Attaches(blocks[..i]) else Detaches(blocks[..i]))
      {
        out := out + [Sent(request, if attach then Attach(blocks[i]) else Detach(blocks[i]))];
      }
      assert blocks[..|blocks|] == blocks;
    }
  }

  datatype PushResult = PushDone(ok: bool, detach: seq<Block>, queried: seq<Block>) | PushCheckFailed | PushUndefined

  /** What the caller sees of a push. */
  function Seen(p: Push): PushResult {
    match p
    case Pushed(ok, _, detach, attach) => PushDone(ok, detach, attach)
    case CheckFailed => PushCheckFailed
    case Undefined => PushUndefined
  }

  /** What PushGiven sends after the detaches. */
  function GivenMessages(detach: seq<Block>, forkHeight: nat, attaches: seq<Block>): seq<Msg>
    requires attaches != []
  {
    if detach != [] && Last(attaches).hash == Last(detach).parent then [] else Attaches(Above(attaches, forkHeight))
  }

  /** Whether the child of the fork point is among the blocks, all of which stand on it. */
  ghost predicate Scanned(bs: seq<Block>, h: nat, e: Hash, found: bool) {
    && (found <==> exists b | b in bs :: b.height == h + 1)
    && (forall b | b in bs && b.height == h + 1 :: b.parent == e)
  }

  lemma ScanNothing(bs: seq<Block>, h: nat, e: Hash)
    ensures Scanned(bs[..0], h, e, false)
  {
  }

  lemma ScanStep(bs: seq<Block>, i: nat, h: nat, e: Hash, found: bool)
    requires i < |bs| && Scanned(bs[..i], h, e, found) && (bs[i].height == h + 1 ==> bs[i].parent == e)
    ensures Scanned(bs[..i + 1], h, e, found || bs[i].height == h + 1)
  {
    assert bs[..i + 1] == bs[..i] + [bs[i]];
  }

  lemma ScanFails(d: seq<Block>, bs: seq<Block>, i: nat, h: nat, e: Hash)
    requires i < |bs| && bs[i].height == h + 1 && bs[i].parent != e && !(d != [] && Last(bs).hash == Last(d).parent)
    ensures PushGiven(d, h, e, bs) == CheckFailed
  {
    assert bs[i] in bs;
  }

  lemma ScanEnd(d: seq<Block>, bs: seq<Block>, h: nat, e: Hash, found: bool)
    requires bs != [] && Scanned(bs, h, e, found) && !(d != [] && Last(bs).hash == Last(d).parent)
    ensures Seen(PushGiven(d, h, e, bs)) == if found then PushDone(true, d, []) else PushCheckFailed
  {
  }

  /** The answer to game_sendupdates3. */
  datatype Response = Response(reqtoken: nat, toblock: Hash, detach: nat, attach: nat, error: bool)

  datatype CallbackResult = CallbackDone | CallbackException | CallbackDied

  class RunData {
    const chain: Chainstate
    const zmq: Outbox
    const maxReorgDepth: nat
    const blockRange: int
    const sanityChecks: bool
    var requests: nat

    constructor (chain: Chainstate, zmq: Outbox, maxReorgDepth: nat, blockRange: int, sanityChecks: bool)
      ensures this.chain == chain && this.zmq == zmq && requests == 0
      ensures Configuration() == Config(maxReorgDepth, blockRange, sanityChecks)
    {
      this.chain, this.zmq := chain, zmq;
      this.maxReorgDepth, this.blockRange, this.sanityChecks := maxReorgDepth, blockRange, sanityChecks;
      this.requests := 0;
    }

    function Configuration(): Config { Config(maxReorgDepth, blockRange, sanityChecks) }

    /** Sends the blocks among attaches that are above the fork point. */
    method PushGivenBlocks(detach: seq<Block>, forkHeight: nat, forkPoint: Hash, attaches: seq<Block>,
                           request: Option<nat>) returns (r: PushResult)
      requires attaches != []
      modifies zmq
      ensures r == Seen(PushGiven(detach, forkHeight, forkPoint, attaches))
      ensures r.PushDone? ==> zmq.out == old(zmq.out) + Tagged(request, GivenMessages(detach, forkHeight, attaches))
    {
      if detach != [] && Last(attaches).hash == Last(detach).parent {
        assert zmq.out == zmq.out + Tagged(request, []);
        return PushDone(true, detach, []);
      }
      hide Tagged, Attaches, Above, PushGiven, Scanned;
      var foundForkPoint := false;
      SendNothing(request, forkHeight, zmq.out, attaches);
      ScanNothing(attaches, forkHeight, forkPoint);
      for i := 0 to |attaches|
        invariant Scanned(attaches[..i], forkHeight, forkPoint, foundForkPoint)
        invariant zmq.out == old(zmq.out) + Tagged(request, Attaches(Above(attaches[..i], forkHeight)))
      {
        var blk := attaches[i];
        SendStep(request, old(zmq.out), attaches, i, forkHeight);
        if blk.height == forkHeight + 1 && blk.parent != forkPoint {
          ScanFails(detach, attaches, i, forkHeight, forkPoint);
          return PushCheckFailed;
        }
        ScanStep(attaches, i, forkHeight, forkPoint, foundForkPoint);
        if blk.height == forkHeight + 1 { foundForkPoint := true; }
        if blk.height > forkHeight {
          zmq.SendBlocks(true, [blk], request);
        }
      }
      assert attaches[..|attaches|] == attaches;
      ScanEnd(detach, attaches, forkHeight, forkPoint, foundForkPoint);
      return if foundForkPoint then PushDone(true, detach, []) else PushCheckFailed;
    }

    /** Sends what leads on from the fork point, after the detaches have been sent. */
    method PushOn(detach: seq<Block>, forkHeight: nat, forkPoint: Hash, to: Hash, attaches: seq<Block>, num: nat,
                  request: Option<nat>, ct: seq<Block>, cr: seq<Block>, ghost before: seq<Sent>)
      returns (r: PushResult)
      requires zmq.out == before + Tagged(request, Detaches(detach))
      modifies zmq
      ensures var p := PushFromFork(chain.blocks, detach, forkHeight, forkPoint, to, attaches, num, ct, cr);
        r == Seen(p) && (r.PushDone? ==> zmq.out == before + Tagged(request, p.msgs))
    {
      hide Tagged, Attaches, Detaches, Reversed, Range, PushGiven, PushQueried;
      var toHeight := if to == NoHash then -1 else HeightOf(ct, to);
      if to != NoHash {
        if toHeight == -1 || toHeight == forkHeight { return PushDone(false, detach, []); }
        if toHeight < forkHeight {
          var n := Min(num, U32(forkHeight - toHeight));
          var toDetach := Range(cr, forkHeight - n + 1, n);
          if toDetach == [] { return PushUndefined; }
          if Last(toDetach).hash != forkPoint { return PushDone(false, detach, []); }
          zmq.SendBlocks(false, Reversed(toDetach), request);
          SendMore(request, before, Detaches(detach), Detaches(Reversed(toDetach)));
          return PushDone(true, detach + Reversed(toDetach), []);
        }
      }
      if attaches != [] {
        r := PushGivenBlocks(detach, forkHeight, forkPoint, attaches, request);
        SendMore(request, before, Detaches(detach), GivenMessages(detach, forkHeight, attaches));
        GivenSends(detach, forkHeight, forkPoint, attaches);
      } else {
        r := PushQueriedBlocks(detach, forkHeight, forkPoint, toHeight, num, request, cr, before);
      }
    }

    /** Sends attaches that are queried from the base chain. */
    method PushQueriedBlocks(detach: seq<Block>, forkHeight: nat, forkPoint: Hash, toHeight: int, num: nat,
                             request: Option<nat>, cr: seq<Block>, ghost before: seq<Sent>) returns (r: PushResult)
      requires zmq.out == before + Tagged(request, Detaches(detach))
      modifies zmq
      ensures var target := if toHeight == -1 then TipHeight(chain.blocks) else toHeight;
        var p := PushQueried(chain.blocks, detach, forkHeight, forkPoint, target, num, cr);
        r == Seen(p) && (r.PushDone? ==> zmq.out == before + Tagged(request, p.msgs))
    {
      hide Tagged, Attaches, Detaches, Range, TipHeight, LowestHeight;
      var pruningDepth := chain.GetMainchainHeight(false);
      var targetHeight := toHeight;
      if toHeight == -1 { targetHeight := chain.GetMainchainHeight(true); }
      if targetHeight < forkHeight { return PushCheckFailed; }
      var queried := Range(cr, forkHeight + 1, Min(num, U32(targetHeight - forkHeight)));
      if queried == [] { return PushDone(true, detach, []); }
      if queried[0].parent != forkPoint { return PushDone(false, detach, []); }
      if Last(queried).height >= pruningDepth {
        var known := chain.GetHeightForHash(Last(queried).hash);
        if known.None? { return PushDone(false, detach, []); }
        if known.value != Last(queried).height { return PushCheckFailed; }
      }
      zmq.SendBlocks(true, queried, request);
      SendMore(request, before, Detaches(detach), Attaches(queried));
      return PushDone(true, detach, queried);
    }

    /** Sends the messages from a block to a block of the main chain: the detaches to
        the fork point and, unless something is wrong, what leads on from there. */
    method PushZmqBlocks(from: Hash, to: Hash, attaches: seq<Block>, num: nat, request: Option<nat>,
                         cf: seq<Block>, ct: seq<Block>, cr: seq<Block>) returns (r: PushResult)
      requires Indexed(chain.tree, chain.blocks)
      modifies zmq
      ensures var p := Notify.PushZmqBlocks(chain.tree, chain.blocks, from, to, attaches, num, cf, ct, cr);
        r == Seen(p) && (r.PushDone? ==> zmq.out == old(zmq.out) + Tagged(request, p.msgs))
    {
      hide Tagged, Attaches, Detaches, PushFromFork, TipHeight, LowestHeight, UniqueSlots, Contiguous;
      SoundIsStepped(chain.tree, chain.blocks);
      if to != NoHash && attaches != [] { return PushCheckFailed; }
      if from == NoHash {
        zmq.SendBlocks(true, attaches, request);
        return PushDone(true, [], []);
      }
      var pruningDepth := chain.GetMainchainHeight(false);
      if pruningDepth < 0 { return PushCheckFailed; }

      var known, detach := chain.GetForkBranch(from);
      var mainchainHeight := -1;
      if !known {
        mainchainHeight := HeightOf(cf, from);
        if mainchainHeight == -1 || mainchainHeight >= pruningDepth {
          assert zmq.out == zmq.out + Tagged(request, []) by { TaggedNothing(request); }
          return PushDone(false, [], []);
        }
      }
      ghost var before := zmq.out;
      zmq.SendBlocks(false, detach, request);

      var forkHeight: nat;
      var forkPoint: Hash;
      if mainchainHeight != -1 {
        forkHeight, forkPoint := mainchainHeight, from;
      } else if detach == [] {
        forkHeight, forkPoint := chain.blocks[from].blk.height, from;
      } else {
        forkHeight, forkPoint := MinusOne(Last(detach).height), Last(detach).parent;
      }
      r := PushOn(detach, forkHeight, forkPoint, to, attaches, num, request, ct, cr, before);
    }

    /** Tells the game processes about a new tip, then prunes.  The notification of the
        pending gate in between may throw. */
    method TipUpdatedFrom(oldTip: Hash, attaches: seq<Block>, c: seq<Block>, throws: bool) returns (r: CallbackResult)
      requires Indexed(chain.tree, chain.blocks)
      modifies zmq, chain
      ensures match SyncSpec.TipUpdatedFrom(chain.tree, Configuration(), old(chain.blocks), oldTip, attaches, c, throws)
        case Notified(msgs, t) =>
          r == CallbackDone && chain.blocks == t && zmq.out == old(zmq.out) + Tagged(None, msgs)
        case CallbackThrew(msgs) =>
          r == CallbackException && chain.blocks == old(chain.blocks) && zmq.out == old(zmq.out) + Tagged(None, msgs)
        case CallbackAborted => r == CallbackDied
    {
      hide Tagged, Attaches, Detaches, Notify.PushZmqBlocks, TipHeight, PruneTable, Sane;
      if attaches == [] { return CallbackDied; }
      var p := PushZmqBlocks(oldTip, NoHash, attaches, 0, None, c, c, c);
      if !p.PushDone? { return CallbackDied; }
      if throws { return CallbackException; }
      if sanityChecks {
        var sane := chain.SanityCheck();
        if !sane { return CallbackDied; }
      }
      var tipHeight := chain.GetMainchainHeight(true);
      if tipHeight > maxReorgDepth + 1 {
        chain.Prune(tipHeight - maxReorgDepth - 1);
      }
      return CallbackDone;
    }

    /** Serves one request; None if the process dies on it. */
    method GameSendUpdates(from: Hash, to: Hash, cf: seq<Block>, ct: seq<Block>, cr: seq<Block>)
      returns (r: Option<Response>)
      requires Indexed(chain.tree, chain.blocks)
      modifies this`requests, zmq
      ensures requests == old(requests) + 1
      ensures var p := Notify.PushZmqBlocks(chain.tree, chain.blocks, from, to, [], U32(blockRange), cf, ct, cr);
        && r.Some? == p.Pushed?
        && (p.Pushed? ==> r.value == Response(requests, ToBlock(from, p), |p.detach|, |p.attach|, !p.ok))
        && (p.Pushed? ==> zmq.out == old(zmq.out) + Tagged(Some(requests), p.msgs))
    {
      hide Tagged, Attaches, Detaches, Notify.PushZmqBlocks;
      requests := requests + 1;
      var p := PushZmqBlocks(from, to, [], U32(blockRange), Some(requests), cf, ct, cr);
      if !p.PushDone? { return None; }
      var toBlock := if p.queried != [] then Last(p.queried).hash
                     else if p.detach != [] then Last(p.detach).parent
                     else from;
      return Some(Response(requests, toBlock, |p.detach|, |p.queried|, !p.ok));
    }
  }

  lemma SendMore(request: Option<nat>, before: seq<Sent>, a: seq<Msg>, b: seq<Msg>)
    ensures before + Tagged(request, a) + Tagged(request, b) == before + Tagged(request, a + b)
  {
  }

  lemma TaggedNothing(request: Option<nat>)
    ensures Tagged(request, []) == []
  {
  }

  lemma GivenSends(detach: seq<Block>, forkHeight: nat, forkPoint: Hash, attaches: seq<Block>)
    requires attaches != []
    ensures var p := PushGiven(detach, forkHeight, forkPoint, attaches);
      p.Pushed? ==> p.msgs == Detaches(detach) + GivenMessages(detach, forkHeight, attaches)
  {
  }

  lemma SendNothing(request: Option<nat>, h: nat, out: seq<Sent>, bs: seq<Block>)
    ensures out == out + Tagged(request, Attaches(Above(bs[..0], h)))
  {
  }

  lemma SendStep(request: Option<nat>, out: seq<Sent>, bs: seq<Block>, i: nat, h: nat)
    requires i < |bs|
    ensures var done := out + Tagged(request, Attaches(Above(bs[..i], h)));
      out + Tagged(request, Attaches(Above(bs[..i + 1], h))) ==
        if bs[i].height > h then done + Tagged(request, Attaches([bs[i]])) else done
  {
    AboveStep(bs, i, h);
  }

  lemma {:induction false} AboveStep(bs: seq<Block>, i: nat, h: nat)
    requires i < |bs|
    ensures Above(bs[..i + 1], h) == Above(bs[..i], h) + (if bs[i].height > h then [bs[i]] else [])
  {
    AboveConcat(bs[..i], [bs[i]], h);
    assert bs[..i + 1] == bs[..i] + [bs[i]];
  }

  lemma {:induction false} AboveConcat(a: seq<Block>, b: seq<Block>, h: nat)
    ensures Above(a + b, h) == Above(a, h) + Above(b, h)
  {
    if a == [] {
      assert a + b == b;
    } else {
      assert (a + b)[1..] == a[1..] + b;
      AboveConcat(a[1..], b, h);
    }
  }
}
