/** The Ethereum connector: block ranges from batched RPC answers, and the two ways of
    adding the moves from event logs. */
module EthChain {
  import opened BlockTree

  /** A log entry: the contract address (if valid) and topic, the block and the place in
      it, and the move it stands for. */
  datatype Log = Log(address: Option<nat>, topic: nat, blockHash: Hash, tx: int, index: int, move: nat)

  /** The contract and event that the connector asks for. */
  datatype Source = Source(contract: nat, event: nat)

  // ----- BlockMoveExtractor

  datatype Extractor = Extractor(lastTx: int, lastIndex: int, moves: seq<nat>)

  const NEW_EXTRACTOR := Extractor(-1, -1, [])

  predicate Before(tx: int, index: int, l: Log) { tx < l.tx || (tx == l.tx && index < l.index) }

  /** One log entry for the block with the given hash; None for a failed CHECK. */
  function ProcessLogEntry(src: Source, hash: Hash, x: Extractor, l: Log): Option<Extractor> {
    if && l.address == Some(src.contract) && l.topic == src.event && l.blockHash == hash
       && Before(x.lastTx, x.lastIndex, l)
    then Some(Extractor(l.tx, l.index, x.moves + [l.move]))
    else None
  }

  function Extract(src: Source, hash: Hash, logs: seq<Log>): Option<Extractor> {
    if logs == [] then Some(NEW_EXTRACTOR)
    else
      var x := Extract(src, hash, logs[..|logs| - 1]);
      if x.None? then None else ProcessLogEntry(src, hash, x.value, logs[|logs| - 1])
  }

  /** Log entries that are all from the right contract, event and block, and strictly
      ordered by transaction and log index. */
  ghost predicate WellOrdered(src: Source, hash: Hash, logs: seq<Log>) {
    && (forall l | l in logs :: l.address == Some(src.contract) && l.topic == src.event && l.blockHash == hash)
    && (forall l | l in logs :: Before(-1, -1, l))
    && (forall i, j | 0 <= i < j < |logs| :: Before(logs[i].tx, logs[i].index, logs[j]))
  }

  function Moves(logs: seq<Log>): seq<nat> { seq(|logs|, i requires 0 <= i < |logs| => logs[i].move) }

  /** The index pair of the last log entry, or the one that an extractor starts with. */
  function LastTx(logs: seq<Log>): int { if logs == [] then -1 else logs[|logs| - 1].tx }

  function LastIndex(logs: seq<Log>): int { if logs == [] then -1 else logs[|logs| - 1].index }

  lemma WellOrderedStep(src: Source, hash: Hash, logs: seq<Log>, l: Log)
    ensures WellOrdered(src, hash, logs + [l]) <==>
      && WellOrdered(src, hash, logs)
      && l.address == Some(src.contract) && l.topic == src.event && l.blockHash == hash
      && Before(LastTx(logs), LastIndex(logs), l)
  {
    var all := logs + [l];
    var n := |logs|;
    assert forall x :: x in all <==> x in logs || x == l;
    assert all[n] == l && forall i | 0 <= i < n :: all[i] == logs[i];
    if WellOrdered(src, hash, all) {
      forall i, j | 0 <= i < j < n ensures Before(logs[i].tx, logs[i].index, logs[j]) {
        assert Before(all[i].tx, all[i].index, all[j]);
      }
      if n > 0 { assert Before(all[n - 1].tx, all[n - 1].index, all[n]); }
    }
    if WellOrdered(src, hash, logs) && Before(LastTx(logs), LastIndex(logs), l) {
      forall i | 0 <= i < n ensures Before(all[i].tx, all[i].index, l) {
        if i < n - 1 { assert Before(logs[i].tx, logs[i].index, logs[n - 1]); }
      }
      if n > 0 { assert Before(-1, -1, logs[n - 1]); }
    }
  }

  /** The extractor accepts exactly the well-ordered lists, and yields their moves in
      order. */
  lemma {:induction false} ExtractExact(src: Source, hash: Hash, logs: seq<Log>)
    ensures Extract(src, hash, logs).Some? <==> WellOrdered(src, hash, logs)
    ensures Extract(src, hash, logs).Some? ==>
      Extract(src, hash, logs).value == Extractor(LastTx(logs), LastIndex(logs), Moves(logs))
    decreases |logs|
  {
    if logs != [] {
      var n := |logs| - 1;
      hide WellOrdered;
      ExtractExact(src, hash, logs[..n]);
      WellOrderedStep(src, hash, logs[..n], logs[n]);
      assert logs[..n] + [logs[n]] == logs;
      assert Moves(logs) == Moves(logs[..n]) + [logs[n].move];
    }
  }

  // ----- Adding the moves

  datatype Added = MovesAdded(moves: seq<seq<nat>>) | TryAgain | AddAborted

  /** One query per block; None is an RPC error for that block. */
  method AddMovesOneByOne(src: Source, hashes: seq<Hash>, answers: seq<Option<seq<Log>>>) returns (r: Added)
    requires |answers| == |hashes|
    ensures r == OneByOne(src, hashes, answers)
  {
    var res := [];
    assert hashes == hashes[0..] && answers == answers[0..];
    for i := 0 to |hashes|
      invariant OneByOne(src, hashes, answers) == Prepend(res, OneByOne(src, hashes[i..], answers[i..]))
    {
      if answers[i].None? { return TryAgain; }
      var x := NEW_EXTRACTOR;
      var logs := answers[i].value;
      for k := 0 to |logs|
        invariant Extract(src, hashes[i], logs[..k]) == Some(x)
      {
        assert logs[..k + 1][..k] == logs[..k];
        var next := ProcessLogEntry(src, hashes[i], x, logs[k]);
        if next.None? {
          ExtractPrefix(src, hashes[i], logs, k + 1);
          return AddAborted;
        }
        x := next.value;
      }
      assert logs[..|logs|] == logs;
      assert hashes[i..][1..] == hashes[i + 1..] && answers[i..][1..] == answers[i + 1..];
      PrependOne(res, x.moves, OneByOne(src, hashes[i + 1..], answers[i + 1..]));
      res := res + [x.moves];
    }
    return MovesAdded(res);
  }

  function Prepend(a: seq<seq<nat>>, r: Added): Added { if r.MovesAdded? then MovesAdded(a + r.moves) else r }

  lemma PrependOne(a: seq<seq<nat>>, m: seq<nat>, r: Added)
    ensures Prepend(a, Prepend([m], r)) == Prepend(a + [m], r)
  {
  }

  /** What the first block that fails decides, and otherwise the moves of each block. */
  function OneByOne(src: Source, hashes: seq<Hash>, answers: seq<Option<seq<Log>>>): Added
    requires |answers| == |hashes|
  {
    if hashes == [] then MovesAdded([])
    else if answers[0].None? then TryAgain
    else
      var x := Extract(src, hashes[0], answers[0].value);
      if x.None? then AddAborted else Prepend([x.value.moves], OneByOne(src, hashes[1..], answers[1..]))
  }

  lemma {:induction false} ExtractPrefix(src: Source, hash: Hash, logs: seq<Log>, k: nat)
    requires k <= |logs| && Extract(src, hash, logs[..k]).None?
    ensures Extract(src, hash, logs).None?
    decreases |logs| - k
  {
    if k == |logs| {
      assert logs[..k] == logs;
    } else {
      assert logs[..k + 1][..k] == logs[..k];
      ExtractPrefix(src, hash, logs, k + 1);
    }
  }

  function Filter(logs: seq<Log>, hash: Hash): seq<Log> {
    if logs == [] then []
    else Filter(logs[..|logs| - 1], hash) + (if logs[|logs| - 1].blockHash == hash then [logs[|logs| - 1]] else [])
  }

  ghost predicate Distinct(hashes: seq<Hash>) { forall i, j | 0 <= i < j < |hashes| :: hashes[i] != hashes[j] }

  /** What the extractors of all blocks have got from a list of logs. */
  ghost predicate Distributed(src: Source, hashes: seq<Hash>, logs: seq<Log>, ext: map<Hash, Extractor>) {
    && ext.Keys == (set h | h in hashes)
    && (forall h | h in hashes :: Extract(src, h, Filter(logs, h)) == Some(ext[h]))
  }

  /** The first block with a hash gets the logs for it. */
  predicate First(hashes: seq<Hash>, i: nat)
    requires i < |hashes|
  {
    forall j | 0 <= j < i :: hashes[j] != hashes[i]
  }

  /** What a query for the whole range leads to: every log must belong to one of the
      blocks, and every block takes its own. */
  function FromRange(src: Source, hashes: seq<Hash>, logs: seq<Log>): Added {
    if (forall l | l in logs :: l.blockHash in hashes) &&
       (forall h | h in hashes :: Extract(src, h, Filter(logs, h)).Some?)
    then MovesAdded(seq(|hashes|, i requires 0 <= i < |hashes| =>
                      assert hashes[i] in hashes;
                      if First(hashes, i) then Extract(src, hashes[i], Filter(logs, hashes[i])).value.moves else []))
    else AddAborted
  }

  /** One query for the whole height range, distributed to the blocks by hash. */
  method AddMovesFromHeightRange(src: Source, hashes: seq<Hash>, logs: seq<Log>) returns (r: Added)
    ensures r == FromRange(src, hashes, logs)
  {
    var ext: map<Hash, Extractor> := map h | h in hashes :: NEW_EXTRACTOR;
    for k := 0 to |logs|
      invariant Distributed(src, hashes, logs[..k], ext)
      invariant forall l | l in logs[..k] :: l.blockHash in hashes
    {
      var l := logs[k];
      FilterStep(logs, k);
      if l.blockHash !in ext {
        assert l in logs;
        return AddAborted;
      }
      var next := ProcessLogEntry(src, l.blockHash, ext[l.blockHash], l);
      DistributeStep(src, hashes, logs, k, ext);
      if next.None? {
        FilterPrefix(src, l.blockHash, logs, k + 1);
        return AddAborted;
      }
      ext := ext[l.blockHash := next.value];
    }
    assert logs[..|logs|] == logs;
    return MovesAdded(seq(|hashes|, i requires 0 <= i < |hashes| =>
      if First(hashes, i) then ext[hashes[i]].moves else []));
  }

  lemma FilterStep(logs: seq<Log>, k: nat)
    requires k < |logs|
    ensures logs[..k + 1] == logs[..k] + [logs[k]]
    ensures forall h ::
      Filter(logs[..k + 1], h) == Filter(logs[..k], h) + (if logs[k].blockHash == h then [logs[k]] else [])
  {
  }

  lemma {:induction false} DistributeStep(src: Source, hashes: seq<Hash>, logs: seq<Log>, k: nat,
                                          ext: map<Hash, Extractor>)
    requires k < |logs| && Distributed(src, hashes, logs[..k], ext) && logs[k].blockHash in hashes
    ensures var h := logs[k].blockHash;
      var next := ProcessLogEntry(src, h, ext[h], logs[k]);
      && Extract(src, h, Filter(logs[..k + 1], h)) == next
      && (next.Some? ==> Distributed(src, hashes, logs[..k + 1], ext[h := next.value]))
  {
    var h := logs[k].blockHash;
    FilterStep(logs, k);
    var f := Filter(logs[..k], h);
    assert (f + [logs[k]])[..|f|] == f;
    forall x | x in hashes && x != h ensures Filter(logs[..k + 1], x) == Filter(logs[..k], x) {
    }
  }

  lemma {:induction false} FilterPrefix(src: Source, hash: Hash, logs: seq<Log>, k: nat)
    requires k <= |logs| && Extract(src, hash, Filter(logs[..k], hash)).None?
    ensures Extract(src, hash, Filter(logs, hash)).None?
    decreases |logs| - k
  {
    if k == |logs| {
      assert logs[..k] == logs;
    } else {
      FilterStep(logs, k);
      var f := Filter(logs[..k], hash);
      if logs[k].blockHash == hash {
        assert (f + [logs[k]])[..|f|] == f;
      } else {
        assert Filter(logs[..k + 1], hash) == f;
      }
      FilterPrefix(src, hash, logs, k + 1);
    }
  }

  /** The moves of each block on its own. */
  ghost predicate OwnMoves(src: Source, hashes: seq<Hash>, answers: seq<Option<seq<Log>>>, moves: seq<seq<nat>>) {
    && |moves| == |hashes| == |answers|
    && (forall i | 0 <= i < |hashes| ::
          && answers[i].Some? && Extract(src, hashes[i], answers[i].value).Some?
          && Extract(src, hashes[i], answers[i].value).value.moves == moves[i])
  }

  lemma {:induction false} OneByOneMoves(src: Source, hashes: seq<Hash>, answers: seq<Option<seq<Log>>>)
    requires |answers| == |hashes| && forall i | 0 <= i < |answers| :: answers[i].Some?
    ensures var r := OneByOne(src, hashes, answers);
      && !r.TryAgain?
      && (r.MovesAdded? <==> forall i | 0 <= i < |hashes| :: Extract(src, hashes[i], answers[i].value).Some?)
      && (r.MovesAdded? ==> OwnMoves(src, hashes, answers, r.moves))
    decreases |hashes|
  {
    if hashes != [] {
      OneByOneMoves(src, hashes[1..], answers[1..]);
      assert forall i | 1 <= i < |hashes| :: hashes[i] == hashes[1..][i - 1] && answers[i] == answers[1..][i - 1];
    }
  }

  /** The fast way gives every block the same moves in the same order as the slow one,
      or fails a CHECK just as the slow one does, whenever the answer for the range,
      filtered by block hash, is the answer for that block; only logs of other blocks, which
      the slow way never sees, make it abort on its own. */
  lemma {:induction false} FastRefinesSlow(src: Source, hashes: seq<Hash>, answers: seq<Option<seq<Log>>>,
                                           logs: seq<Log>)
    requires Distinct(hashes) && |answers| == |hashes|
    requires forall i | 0 <= i < |answers| :: answers[i] == Some(Filter(logs, hashes[i]))
    ensures FromRange(src, hashes, logs) ==
      if exists l | l in logs :: l.blockHash !in hashes then AddAborted else OneByOne(src, hashes, answers)
  {
    OneByOneMoves(src, hashes, answers);
    assert forall i | 0 <= i < |hashes| :: hashes[i] in hashes && First(hashes, i);
    var fast := FromRange(src, hashes, logs);
    var slow := OneByOne(src, hashes, answers);
    if slow.MovesAdded? && (forall l | l in logs :: l.blockHash in hashes) {
      assert fast.moves == slow.moves;
    }
  }

  // ----- Block ranges

  /** The answer for one height: an error, null, or a block. */
  datatype BlockAnswer = Error | Null | Found(blk: Block)

  datatype Attempt = Blocks(blocks: seq<Block>, moves: seq<seq<nat>>) | Retry | AttemptAborted

  /** What the node answers during one attempt. */
  datatype Answers = Answers(tip: int, blocks: seq<BlockAnswer>, byHash: seq<Option<seq<Log>>>, byRange: seq<Log>)

  function HashesOf(bs: seq<Block>): seq<Hash> { seq(|bs|, i requires 0 <= i < |bs| => bs[i].hash) }

  /** The last height to ask for. */
  function EndHeight(end: int, a: Answers): int { if a.tip < end then a.tip else end }

  /** Whether the logs are far enough behind the tip for the fast way. */
  predicate Fast(end: int, fastDepth: int, a: Answers) { EndHeight(end, a) + fastDepth < a.tip }

  /** Moves that come from log entries in strictly increasing order. */
  ghost predicate OrderedMoves(src: Source, hash: Hash, moves: seq<nat>) {
    exists logs :: WellOrdered(src, hash, logs) && Moves(logs) == moves
  }

  lemma {:induction false} OneByOneOrdered(src: Source, hashes: seq<Hash>, answers: seq<Option<seq<Log>>>)
    requires |answers| == |hashes|
    ensures var r := OneByOne(src, hashes, answers);
      r.MovesAdded? ==>
        |r.moves| == |hashes| && forall i | 0 <= i < |hashes| :: OrderedMoves(src, hashes[i], r.moves[i])
    decreases |hashes|
  {
    if hashes != [] && answers[0].Some? {
      ExtractExact(src, hashes[0], answers[0].value);
      OneByOneOrdered(src, hashes[1..], answers[1..]);
      assert forall i | 1 <= i < |hashes| :: hashes[i] == hashes[1..][i - 1];
    }
  }

  lemma FromRangeOrdered(src: Source, hashes: seq<Hash>, logs: seq<Log>)
    ensures var r := FromRange(src, hashes, logs);
      r.MovesAdded? ==>
        |r.moves| == |hashes| && forall i | 0 <= i < |hashes| :: OrderedMoves(src, hashes[i], r.moves[i])
  {
    var r := FromRange(src, hashes, logs);
    if r.MovesAdded? {
      forall i | 0 <= i < |hashes| ensures OrderedMoves(src, hashes[i], r.moves[i]) {
        assert hashes[i] in hashes;
        ExtractExact(src, hashes[i], Filter(logs, hashes[i]));
        assert WellOrdered(src, hashes[i], []) && Moves([]) == [];
      }
    }
  }

  /** The blocks of the batch answers, in order: an error or a wrong height fails a CHECK,
      a missing or unlinked block is taken for a race. */
  function Collect(start: nat, answers: seq<BlockAnswer>): (r: Attempt)
    ensures r.Blocks? ==> |r.blocks| == |answers| && r.moves == []
    decreases |answers|
  {
    if answers == [] then Blocks([], [])
    else
      var n := |answers| - 1;
      var r := Collect(start, answers[..n]);
      if !r.Blocks? then r
      else match answers[n]
        case Error => AttemptAborted
        case Null => Retry
        case Found(b) =>
          if b.height != start + n then AttemptAborted
          else if n > 0 && b.parent != r.blocks[n - 1].hash then Retry
          else Blocks(r.blocks + [b], [])
  }

  /** The first answer that is not good decides. */
  lemma {:induction false} CollectPrefix(start: nat, answers: seq<BlockAnswer>, k: nat)
    requires k <= |answers| && !Collect(start, answers[..k]).Blocks?
    ensures Collect(start, answers) == Collect(start, answers[..k])
    decreases |answers| - k
  {
    if k == |answers| {
      assert answers[..k] == answers;
    } else {
      assert answers[..k + 1][..k] == answers[..k];
      CollectPrefix(start, answers, k + 1);
    }
  }

  /** Whatever the node answers, collected blocks are linked and have the heights from
      start on. */
  lemma {:induction false} CollectSound(start: nat, answers: seq<BlockAnswer>)
    requires Collect(start, answers).Blocks?
    ensures LinkedRange(Collect(start, answers).blocks, start) && AllFound(answers, Collect(start, answers).blocks)
    decreases |answers|
  {
    if answers != [] {
      var n := |answers| - 1;
      CollectSound(start, answers[..n]);
      var bs := Collect(start, answers[..n]).blocks;
      assert Collect(start, answers).blocks == bs + [answers[n].blk];
    }
  }

  /** And answers of that kind are always collected. */
  lemma {:induction false} CollectComplete(start: nat, answers: seq<BlockAnswer>, bs: seq<Block>)
    requires LinkedRange(bs, start) && AllFound(answers, bs)
    ensures Collect(start, answers) == Blocks(bs, [])
    decreases |answers|
  {
    if answers != [] {
      var n := |answers| - 1;
      assert answers[n] == Found(bs[n]) && bs[n].height == start + n;
      if n > 0 { assert bs[n].parent == bs[n - 1].hash; }
      assert LinkedRange(bs[..n], start) && AllFound(answers[..n], bs[..n]);
      CollectComplete(start, answers[..n], bs[..n]);
      assert bs[..n] + [bs[n]] == bs;
    }
  }

  ghost predicate AllFound(answers: seq<BlockAnswer>, bs: seq<Block>) {
    |bs| == |answers| && forall i | 0 <= i < |answers| :: answers[i] == Found(bs[i])
  }

  /** The node answers every call of the batch requests. */
  predicate Complete(start: nat, end: int, a: Answers) {
    |a.blocks| == Max(0, EndHeight(end, a) + 1 - start) && |a.byHash| == |a.blocks|
  }

  /** What one attempt to get the blocks from start to end comes to. */
  function Attempted(src: Source, start: nat, end: int, fastDepth: int, a: Answers): Attempt
    requires Complete(start, end, a)
  {
    var c := Collect(start, a.blocks);
    if !c.Blocks? || c.blocks == [] then c
    else
      match (if Fast(end, fastDepth, a) then FromRange(src, HashesOf(c.blocks), a.byRange)
             else OneByOne(src, HashesOf(c.blocks), a.byHash))
      case MovesAdded(moves) => Blocks(c.blocks, moves)
      case TryAgain => Retry
      case AddAborted => AttemptAborted
  }

  /** Whatever the node answers, blocks that are returned have consecutive heights from
      start to the smaller of end and the tip, are linked by hash, and have their moves
      in order. */
  lemma AttemptedSound(src: Source, start: nat, end: int, fastDepth: int, a: Answers)
    requires Complete(start, end, a) && Attempted(src, start, end, fastDepth, a).Blocks?
    ensures var r := Attempted(src, start, end, fastDepth, a);
      && LinkedRange(r.blocks, start) && |r.moves| == |r.blocks|
      && start + |r.blocks| == Max(start, EndHeight(end, a) + 1)
      && AllFound(a.blocks, r.blocks)
      && forall i | 0 <= i < |r.blocks| :: OrderedMoves(src, r.blocks[i].hash, r.moves[i])
  {
    hide FromRange, OneByOne, OrderedMoves;
    if Collect(start, a.blocks).Blocks? { CollectSound(start, a.blocks); }
    var c := Collect(start, a.blocks);
    var hashes := HashesOf(c.blocks);
    if c.blocks != [] {
      FromRangeOrdered(src, hashes, a.byRange);
      OneByOneOrdered(src, hashes, a.byHash);
      assert forall i | 0 <= i < |c.blocks| :: hashes[i] == c.blocks[i].hash;
    }
  }

  method TryBlockRange(src: Source, start: nat, end: int, fastDepth: int, a: Answers) returns (r: Attempt)
    requires Complete(start, end, a)
    ensures r == Attempted(src, start, end, fastDepth, a)
  {
    hide FromRange, OneByOne;
    var endHeight := EndHeight(end, a);
    if endHeight < start { return Blocks([], []); }
    var res := [];
    for i := 0 to |a.blocks|
      invariant Collect(start, a.blocks[..i]) == Blocks(res, [])
      invariant |res| == i && (i > 0 ==> res[i - 1].height == start + i - 1)
    {
      assert a.blocks[..i + 1][..i] == a.blocks[..i];
      var blk := a.blocks[i];
      var next := if blk.Error? then AttemptAborted
                  else if blk.Null? then Retry
                  else if blk.blk.height != (if res == [] then start else res[|res| - 1].height + 1) then AttemptAborted
                  else if res != [] && blk.blk.parent != res[|res| - 1].hash then Retry
                  else Blocks(res + [blk.blk], []);
      if !next.Blocks? {
        CollectPrefix(start, a.blocks, i + 1);
        return next;
      }
      res := next.blocks;
    }
    assert a.blocks[..|a.blocks|] == a.blocks;
    if res[|res| - 1].height != endHeight { return AttemptAborted; }
    var added;
    if endHeight + fastDepth < a.tip {
      added := AddMovesFromHeightRange(src, HashesOf(res), a.byRange);
    } else {
      added := AddMovesOneByOne(src, HashesOf(res), a.byHash);
    }
    return match added
      case MovesAdded(moves) => Blocks(res, moves)
      case TryAgain => Retry
      case AddAborted => AttemptAborted;
  }

  /** The outcome of the first attempt that does not see the chain change under it. */
  function FirstSettled(src: Source, start: nat, end: int, fastDepth: int, attempts: seq<Answers>): Attempt
    requires forall a | a in attempts :: Complete(start, end, a)
  {
    if attempts == [] then Retry
    else
      var r := Attempted(src, start, end, fastDepth, attempts[0]);
      if r.Retry? then FirstSettled(src, start, end, fastDepth, attempts[1..]) else r
  }

  /** Attempts until one of them succeeds; Retry if all of the given ones fail. */
  method GetBlockRange(src: Source, start: nat, count: nat, fastDepth: int, attempts: seq<Answers>) returns (r: Attempt)
    requires forall a | a in attempts :: Complete(start, start + count - 1, a)
    ensures count == 0 ==> r == Blocks([], [])
    ensures count > 0 ==>
      r == if start + count > 0x1_0000_0000_0000_0000 then AttemptAborted
           else FirstSettled(src, start, start + count - 1, fastDepth, attempts)
    ensures r.Blocks? ==> LinkedRange(r.blocks, start) && |r.blocks| <= count && |r.moves| == |r.blocks|
    ensures r.Blocks? ==> forall i | 0 <= i < |r.blocks| :: OrderedMoves(src, r.blocks[i].hash, r.moves[i])
  {
    hide Attempted, OrderedMoves;
    if count == 0 { return Blocks([], []); }
    var endHeight := start + count - 1;
    if endHeight >= 0x1_0000_0000_0000_0000 { return AttemptAborted; }
    assert attempts[0..] == attempts;
    for n := 0 to |attempts|
      invariant forall a | a in attempts[n..] :: a in attempts
      invariant FirstSettled(src, start, endHeight, fastDepth, attempts) ==
        FirstSettled(src, start, endHeight, fastDepth, attempts[n..])
    {
      assert attempts[n] in attempts && attempts[n..][1..] == attempts[n + 1..];
      r := TryBlockRange(src, start, endHeight, fastDepth, attempts[n]);
      if !r.Retry? {
        if r.Blocks? { AttemptedSound(src, start, endHeight, fastDepth, attempts[n]); }
        return;
      }
    }
    return Retry;
  }
}
