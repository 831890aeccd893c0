/** What an attempt of the Ethereum connector comes to, answer by answer: when it yields
    blocks, when it is repeated, when it aborts, and which log entries the moves are of. */
module EthOutcomes {
  import opened BlockTree
  import opened EthChain
  import opened Positions

  // ----- The blocks

  /** A block of the wrong height, or an RPC error. */
  predicate Broken(start: nat, answers: seq<BlockAnswer>, k: nat)
    requires k < |answers|
  {
    answers[k].Error? || (answers[k].Found? && answers[k].blk.height != start + k)
  }

  /** A block of the right height on top of the one before it. */
  predicate Linked(start: nat, answers: seq<BlockAnswer>, k: nat)
    requires k < |answers|
  {
    && answers[k].Found? && answers[k].blk.height == start + k
    && (k > 0 ==> answers[k - 1].Found? && answers[k].blk.parent == answers[k - 1].blk.hash)
  }

  ghost predicate LinkedUpTo(start: nat, answers: seq<BlockAnswer>, n: nat)
    requires n <= |answers|
  {
    forall k | 0 <= k < n :: Linked(start, answers, k)
  }

  /** The first answer that is not a linked block decides: it aborts if it is broken, and
      otherwise it is taken for a race. */
  lemma {:induction false} CollectOutcome(start: nat, answers: seq<BlockAnswer>)
    ensures var r := Collect(start, answers);
      && (r.Blocks? <==> LinkedUpTo(start, answers, |answers|))
      && (r.Blocks? ==> AllFound(answers, r.blocks))
      && (r.AttemptAborted? <==>
        exists k | 0 <= k < |answers| :: LinkedUpTo(start, answers, k) && Broken(start, answers, k))
    decreases |answers|
  {
    if answers != [] {
      var n := |answers| - 1;
      var before := answers[..n];
      CollectOutcome(start, before);
      assert forall k | 0 <= k < n :: Linked(start, before, k) <==> Linked(start, answers, k);
      assert forall k | 0 <= k < n :: Broken(start, before, k) <==> Broken(start, answers, k);
      assert forall k | 0 <= k <= n :: LinkedUpTo(start, before, k) <==> LinkedUpTo(start, answers, k);
      assert LinkedUpTo(start, answers, n + 1) <==> LinkedUpTo(start, answers, n) && Linked(start, answers, n);
      var r := Collect(start, before);
      if r.Blocks? && n > 0 { assert answers[n - 1] == Found(r.blocks[n - 1]); }
    }
  }

  // ----- One query for each block

  /** The logs of block i came, and are in order. */
  ghost predicate GoodLogs(src: Source, hashes: seq<Hash>, answers: seq<Option<seq<Log>>>, i: nat)
    requires i < |hashes| == |answers|
  {
    answers[i].Some? && WellOrdered(src, hashes[i], answers[i].value)
  }

  ghost predicate GoodUpTo(src: Source, hashes: seq<Hash>, answers: seq<Option<seq<Log>>>, n: nat)
    requires n <= |hashes| == |answers|
  {
    forall i | 0 <= i < n :: GoodLogs(src, hashes, answers, i)
  }

  ghost predicate MovesOf(logs: seq<Log>, moves: seq<nat>) {
    |moves| == |logs| && forall k | 0 <= k < |logs| :: moves[k] == logs[k].move
  }

  lemma GoodFrom(src: Source, hashes: seq<Hash>, answers: seq<Option<seq<Log>>>, n: nat)
    requires 0 < |hashes| == |answers| && n < |hashes|
    ensures GoodUpTo(src, hashes, answers, n + 1) <==>
      GoodLogs(src, hashes, answers, 0) && GoodUpTo(src, hashes[1..], answers[1..], n)
  {
    hide WellOrdered;
    forall i | 0 <= i < n
      ensures GoodLogs(src, hashes[1..], answers[1..], i) == GoodLogs(src, hashes, answers, i + 1)
    {
    }
    if GoodLogs(src, hashes, answers, 0) && GoodUpTo(src, hashes[1..], answers[1..], n) {
      forall i | 0 <= i < n + 1 ensures GoodLogs(src, hashes, answers, i) {
        if i > 0 { assert GoodLogs(src, hashes[1..], answers[1..], i - 1); }
      }
    }
  }

  /** The first block whose logs are missing or bad decides; without one, each block has
      the moves of its own logs. */
  lemma {:induction false} OneByOneOutcome(src: Source, hashes: seq<Hash>, answers: seq<Option<seq<Log>>>)
    requires |answers| == |hashes|
    ensures var r := OneByOne(src, hashes, answers);
      && (r.MovesAdded? <==> GoodUpTo(src, hashes, answers, |hashes|))
      && (r.TryAgain? <==> exists i | 0 <= i < |hashes| :: GoodUpTo(src, hashes, answers, i) && answers[i].None?)
      && (r.MovesAdded? ==>
        |r.moves| == |hashes| && forall i | 0 <= i < |hashes| :: MovesOf(answers[i].value, r.moves[i]))
    decreases |hashes|
  {
    if hashes != [] {
      hide WellOrdered, Extract;
      OneByOneOutcome(src, hashes[1..], answers[1..]);
      var rest := OneByOne(src, hashes[1..], answers[1..]);
      var n := |hashes|;
      assert GoodUpTo(src, hashes, answers, 0);
      forall i | 0 <= i < n
        ensures GoodUpTo(src, hashes, answers, i + 1) <==>
          GoodLogs(src, hashes, answers, 0) && GoodUpTo(src, hashes[1..], answers[1..], i)
      {
        GoodFrom(src, hashes, answers, i);
      }
      if answers[0].Some? { ExtractExact(src, hashes[0], answers[0].value); }
      if rest.TryAgain? && GoodLogs(src, hashes, answers, 0) {
        var i :| 0 <= i < n - 1 && GoodUpTo(src, hashes[1..], answers[1..], i) && answers[1..][i].None?;
        assert GoodUpTo(src, hashes, answers, i + 1) && answers[i + 1].None?;
      }
      var r := OneByOne(src, hashes, answers);
      if i :| 0 < i < n && GoodUpTo(src, hashes, answers, i) && answers[i].None? {
        assert GoodUpTo(src, hashes[1..], answers[1..], i - 1) && answers[1..][i - 1].None?;
      }
      if r.MovesAdded? {
        forall i | 0 <= i < n ensures MovesOf(answers[i].value, r.moves[i]) {
          if i > 0 { assert MovesOf(answers[1..][i - 1].value, rest.moves[i - 1]); }
        }
      }
    }
  }

  // ----- One query for the whole range

  /** Each log is of one of the blocks, and the logs of each block are in order. */
  ghost predicate GoodRange(src: Source, hashes: seq<Hash>, logs: seq<Log>) {
    && (forall l | l in logs :: l.address == Some(src.contract) && l.topic == src.event)
    && (forall l | l in logs :: Before(-1, -1, l) && l.blockHash in hashes)
    && (forall i, j | 0 <= i < j < |logs| && logs[i].blockHash == logs[j].blockHash ::
          Before(logs[i].tx, logs[i].index, logs[j]))
  }

  ghost function OfBlock(h: Hash): Log -> bool { (l: Log) => l.blockHash == h }

  /** The moves of the logs with a block hash, in the order of the logs. */
  ghost predicate MovesFrom(logs: seq<Log>, h: Hash, moves: seq<nat>, at: seq<nat>) {
    && Picks(at, logs, OfBlock(h))
    && |moves| == |at| && forall k | 0 <= k < |at| :: moves[k] == logs[at[k]].move
  }

  ghost function PositionsOf(logs: seq<Log>, h: Hash): seq<nat> {
    if logs == [] then []
    else
      var n := |logs| - 1;
      PositionsOf(logs[..n], h) + (if logs[n].blockHash == h then [n] else [])
  }

  lemma {:induction false} FilterSelects(logs: seq<Log>, h: Hash)
    ensures var at := PositionsOf(logs, h);
      && Picks(at, logs, OfBlock(h)) && (forall k | 0 <= k < |at| :: at[k] < |logs|)
      && |Filter(logs, h)| == |at| && forall k | 0 <= k < |at| :: Filter(logs, h)[k] == logs[at[k]]
    decreases |logs|
  {
    hide Picks;
    if logs == [] {
      PicksNone(OfBlock(h));
    } else {
      var n := |logs| - 1;
      FilterSelects(logs[..n], h);
      var at, f := PositionsOf(logs[..n], h), Filter(logs[..n], h);
      PicksMore(at, logs, n, OfBlock(h));
      assert PositionsOf(logs, h) == if OfBlock(h)(logs[n]) then at + [n] else at;
      assert Filter(logs, h) == if logs[n].blockHash == h then f + [logs[n]] else f;
    }
  }

  /** Two logs of a block are found in the filtered list, in the same order. */
  lemma FilterKeepsOrder(logs: seq<Log>, i: nat, j: nat)
    requires i < j < |logs| && logs[i].blockHash == logs[j].blockHash
    ensures var f := Filter(logs, logs[i].blockHash);
      exists a, b | 0 <= a < b < |f| :: f[a] == logs[i] && f[b] == logs[j]
  {
    var h := logs[i].blockHash;
    FilterSelects(logs, h);
    var at := PositionsOf(logs, h);
    assert OfBlock(h)(logs[i]) && OfBlock(h)(logs[j]);
    var a :| 0 <= a < |at| && at[a] == i;
    var b :| 0 <= b < |at| && at[b] == j;
    assert a < b;
  }

  lemma FilterOrdered(logs: seq<Log>, h: Hash)
    requires forall i, j | 0 <= i < j < |logs| && logs[i].blockHash == logs[j].blockHash ::
      Before(logs[i].tx, logs[i].index, logs[j])
    ensures var f := Filter(logs, h); forall i, j | 0 <= i < j < |f| :: Before(f[i].tx, f[i].index, f[j])
  {
    FilterSelects(logs, h);
    var at, f := PositionsOf(logs, h), Filter(logs, h);
    forall i, j | 0 <= i < j < |f| ensures Before(f[i].tx, f[i].index, f[j]) {
      assert at[i] < at[j] && OfBlock(h)(logs[at[i]]) && OfBlock(h)(logs[at[j]]);
    }
  }

  lemma FilterMembers(logs: seq<Log>, h: Hash)
    ensures forall l :: l in Filter(logs, h) <==> l in logs && l.blockHash == h
  {
    FilterSelects(logs, h);
    forall l | l in logs && l.blockHash == h ensures l in Filter(logs, h) {
      var i :| 0 <= i < |logs| && logs[i] == l;
      assert OfBlock(h)(logs[i]);
    }
  }

  lemma GoodRangeIff(src: Source, hashes: seq<Hash>, logs: seq<Log>)
    ensures GoodRange(src, hashes, logs) <==>
      && (forall l | l in logs :: l.blockHash in hashes)
      && (forall h | h in hashes :: WellOrdered(src, h, Filter(logs, h)))
  {
    forall h ensures forall l :: l in Filter(logs, h) <==> l in logs && l.blockHash == h {
      FilterMembers(logs, h);
    }
    if GoodRange(src, hashes, logs) {
      forall h | h in hashes ensures WellOrdered(src, h, Filter(logs, h)) {
        FilterOrdered(logs, h);
      }
    }
    if (forall l | l in logs :: l.blockHash in hashes) &&
       (forall h | h in hashes :: WellOrdered(src, h, Filter(logs, h)))
    {
      assert forall l | l in logs :: l in Filter(logs, l.blockHash);
      forall i, j | 0 <= i < j < |logs| && logs[i].blockHash == logs[j].blockHash
        ensures Before(logs[i].tx, logs[i].index, logs[j])
      {
        FilterKeepsOrder(logs, i, j);
        assert logs[i] in logs;
      }
    }
  }

  /** Logs are refused exactly if one is of no block or the logs of a block are out of
      order; otherwise each block has the moves of the logs with its hash. */
  lemma FromRangeOutcome(src: Source, hashes: seq<Hash>, logs: seq<Log>)
    ensures var r := FromRange(src, hashes, logs);
      && !r.TryAgain?
      && (r.MovesAdded? <==> GoodRange(src, hashes, logs))
      && (r.MovesAdded? ==>
        && |r.moves| == |hashes|
        && forall i | 0 <= i < |hashes| ::
             if exists j | 0 <= j < i :: hashes[j] == hashes[i] then r.moves[i] == []
             else exists at :: MovesFrom(logs, hashes[i], r.moves[i], at))
  {
    forall h | h in hashes
      ensures Extract(src, h, Filter(logs, h)).Some? <==> WellOrdered(src, h, Filter(logs, h))
    {
      ExtractExact(src, h, Filter(logs, h));
    }
    GoodRangeIff(src, hashes, logs);
    var r := FromRange(src, hashes, logs);
    if r.MovesAdded? {
      forall i | 0 <= i < |hashes| && First(hashes, i)
        ensures MovesFrom(logs, hashes[i], r.moves[i], PositionsOf(logs, hashes[i]))
      {
        assert hashes[i] in hashes;
        ExtractExact(src, hashes[i], Filter(logs, hashes[i]));
        FilterSelects(logs, hashes[i]);
      }
    }
  }

  // ----- Attempts

  ghost predicate LinkedAnswers(start: nat, a: Answers, bs: seq<Block>) {
    LinkedUpTo(start, a.blocks, |a.blocks|) && AllFound(a.blocks, bs)
  }

  /** What a whole attempt comes to. Without blocks up to the smaller of end and the tip
      there is nothing to do; an answer that is no linked block decides at once; and with
      linked blocks, the logs of the way that is taken decide, where the fast way is taken
      exactly if that height is more than the given depth behind the tip. */
  lemma AttemptOutcome(src: Source, start: nat, end: int, fastDepth: int, a: Answers, bs: seq<Block>)
    requires Complete(start, end, a)
    ensures var r := Attempted(src, start, end, fastDepth, a);
      var last := if a.tip < end then a.tip else end;
      && (last < start ==> r == Blocks([], []))
      && ((exists k | 0 <= k < |a.blocks| :: LinkedUpTo(start, a.blocks, k) && Broken(start, a.blocks, k)) ==>
        r == AttemptAborted)
      && (!LinkedUpTo(start, a.blocks, |a.blocks|) ==> !r.Blocks?)
      && (!LinkedUpTo(start, a.blocks, |a.blocks|) && r.AttemptAborted? ==>
        exists k | 0 <= k < |a.blocks| :: LinkedUpTo(start, a.blocks, k) && Broken(start, a.blocks, k))
      && (last >= start && LinkedAnswers(start, a, bs) ==>
        var hashes := HashesOf(bs);
        && |a.byHash| == |bs| && (r.Blocks? ==> r.blocks == bs && |r.moves| == |bs|)
        && (last + fastDepth >= a.tip ==>
          && (r.Blocks? <==> GoodUpTo(src, hashes, a.byHash, |bs|))
          && (r.Retry? <==>
            exists i | 0 <= i < |bs| :: GoodUpTo(src, hashes, a.byHash, i) && a.byHash[i].None?)
          && (r.Blocks? ==> forall i | 0 <= i < |bs| :: MovesOf(a.byHash[i].value, r.moves[i])))
        && (last + fastDepth < a.tip ==>
          && !r.Retry? && (r.Blocks? <==> GoodRange(src, hashes, a.byRange))
          && (r.Blocks? ==> forall i | 0 <= i < |bs| ::
            if exists j | 0 <= j < i :: bs[j].hash == bs[i].hash then r.moves[i] == []
            else exists at :: MovesFrom(a.byRange, bs[i].hash, r.moves[i], at))))
  {
    hide FromRange, OneByOne, Linked, Broken, GoodRange, GoodLogs, MovesFrom, MovesOf;
    CollectOutcome(start, a.blocks);
    var c := Collect(start, a.blocks);
    if c.Blocks? && LinkedAnswers(start, a, bs) {
      assert c.blocks == bs;
      OneByOneOutcome(src, HashesOf(bs), a.byHash);
      FromRangeOutcome(src, HashesOf(bs), a.byRange);
      assert forall i | 0 <= i < |bs| :: HashesOf(bs)[i] == bs[i].hash;
      forall i | 0 <= i < |bs|
        ensures (exists j | 0 <= j < i :: HashesOf(bs)[j] == HashesOf(bs)[i]) ==
                (exists j | 0 <= j < i :: bs[j].hash == bs[i].hash)
      {
        if j :| 0 <= j < i && bs[j].hash == bs[i].hash { assert HashesOf(bs)[j] == HashesOf(bs)[i]; }
      }
    }
  }

  /** The attempts before the first that is not a race lead to nothing. */
  lemma {:induction false} FirstSettledOutcome(src: Source, start: nat, end: int, fastDepth: int,
                                               attempts: seq<Answers>)
    requires forall a | a in attempts :: Complete(start, end, a)
    ensures var r := FirstSettled(src, start, end, fastDepth, attempts);
      if forall a | a in attempts :: Attempted(src, start, end, fastDepth, a).Retry? then r == Retry
      else
        exists n | 0 <= n < |attempts| ::
          && r == Attempted(src, start, end, fastDepth, attempts[n]) && !r.Retry?
          && forall i | 0 <= i < n :: Attempted(src, start, end, fastDepth, attempts[i]).Retry?
    decreases |attempts|
  {
    hide Attempted;
    if attempts != [] {
      var r := Attempted(src, start, end, fastDepth, attempts[0]);
      if r.Retry? {
        FirstSettledOutcome(src, start, end, fastDepth, attempts[1..]);
        assert forall i | 0 < i < |attempts| :: attempts[i] == attempts[1..][i - 1];
        assert forall a :: a in attempts <==> a == attempts[0] || a in attempts[1..];
      } else {
        assert attempts[0] in attempts;
      }
    }
  }
}
