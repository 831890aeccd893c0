/** The block cache in front of a base chain: it answers exactly as the base chain
    would, as long as blocks that are deep enough behind the tip never change. */
module BlockCache {
  import opened BlockTree

  // ----- Any storage

  /** A reply of a storage: blocks that were stored; if there are as many as asked for,
      they are in the range and in order. */
  ghost predicate FromStorage(stored: set<Block>, start: nat, count: nat, reply: seq<Block>) {
    && (forall b | b in reply :: b in stored)
    && (|reply| == count ==>
          && (forall i | 0 <= i < |reply| :: start <= reply[i].height < start + count)
          && (forall i, j | 0 <= i < j < |reply| :: reply[i].height < reply[j].height))
  }

  /** As many different heights as there are in a range fill the range. */
  lemma {:induction false} Pigeonhole(reply: seq<Block>, start: nat, i: nat)
    requires i < |reply|
    requires forall k | 0 <= k < |reply| :: start <= reply[k].height < start + |reply|
    requires forall j, k | 0 <= j < k < |reply| :: reply[j].height < reply[k].height
    ensures reply[i].height == start + i
  {
    AtLeast(reply, start, i);
    AtMost(reply, start + |reply|, i);
  }

  lemma {:induction false} AtLeast(reply: seq<Block>, start: nat, i: nat)
    requires i < |reply|
    requires forall k | 0 <= k < |reply| :: start <= reply[k].height
    requires forall j, k | 0 <= j < k < |reply| :: reply[j].height < reply[k].height
    ensures reply[i].height >= start + i
  {
    if i > 0 { AtLeast(reply, start, i - 1); }
  }

  lemma {:induction false} AtMost(reply: seq<Block>, end: nat, i: nat)
    requires i < |reply|
    requires forall k | 0 <= k < |reply| :: reply[k].height < end
    requires forall j, k | 0 <= j < k < |reply| :: reply[j].height < reply[k].height
    ensures reply[i].height + (|reply| - i) <= end
    decreases |reply| - i
  {
    if i + 1 < |reply| { AtMost(reply, end, i + 1); }
  }

  // ----- The caching chain

  /** The state: the last observed tip height, and all blocks that were ever stored. */
  datatype Cache = Cache(minDepth: nat, lastTip: nat, stored: set<Block>)

  /** An answer, the cache after it, and how often the base chain was asked. */
  datatype Answer = Answer(blocks: seq<Block>, cache: Cache, asked: nat)

  /** GetBlockRange, with the reply of the storage and a snapshot of the base chain. */
  function GetBlockRange(k: Cache, start: nat, count: nat, reply: seq<Block>, c: seq<Block>): Answer {
    if start + count + k.minDepth > k.lastTip + 1 then Answer(Range(c, start, count), k, 1)
    else if |reply| == count then Answer(reply, k, 0)
    else
      var res := Range(c, start, count);
      Answer(res, k.(stored := k.stored + (set b | b in res)), 1)
  }

  /** The prefix p of the base chain is final: it covers all that is deep enough behind
      the last observed tip, and the stored blocks are from it. */
  ghost predicate CacheInv(k: Cache, p: seq<Block>) {
    && k.lastTip + 1 <= |p| + k.minDepth
    && (forall b | b in k.stored :: b.height < |p| && p[b.height] == b)
  }

  ghost predicate Heights(c: seq<Block>) { forall i | 0 <= i < |c| :: c[i].height == i }

  /** A full reply from the storage is the answer of the base chain. */
  lemma FullReply(k: Cache, p: seq<Block>, start: nat, count: nat, reply: seq<Block>, c: seq<Block>)
    requires CacheInv(k, p) && p <= c && FromStorage(k.stored, start, count, reply) && |reply| == count
    requires start + count + k.minDepth <= k.lastTip + 1
    ensures reply == Range(c, start, count)
  {
    var r := Range(c, start, count);
    assert |p| <= |c| && start + count <= |p|;
    assert |r| == count;
    forall i | 0 <= i < count ensures reply[i] == r[i] {
      Pigeonhole(reply, start, i);
      assert reply[i] in reply;
      assert p[start + i] == c[start + i];
    }
  }

  /** Every answer is what the base chain would answer.  That is not asked exactly if the range
      is deep enough behind the last observed tip and the storage has all of it; and whatever it
      is asked for such a range is stored. */
  lemma RangeExact(k: Cache, p: seq<Block>, start: nat, count: nat, reply: seq<Block>, c: seq<Block>)
    requires CacheInv(k, p) && p <= c && Heights(c) && FromStorage(k.stored, start, count, reply)
    ensures var a := GetBlockRange(k, start, count, reply, c);
      var deep := start + count + k.minDepth <= k.lastTip + 1;
      && a.blocks == Range(c, start, count) && CacheInv(a.cache, p)
      && a.asked == (if deep && |reply| == count then 0 else 1)
      && a.cache.minDepth == k.minDepth && a.cache.lastTip == k.lastTip
      && (forall b :: b in a.cache.stored <==> b in k.stored || (deep && a.asked == 1 && b in a.blocks))
  {
    if start + count + k.minDepth <= k.lastTip + 1 {
      assert forall i | 0 <= i < |p| :: p[i] == c[i];
      var res := Range(c, start, count);
      if |reply| == count {
        FullReply(k, p, start, count, reply, c);
      } else {
        forall b | b in res ensures b.height < |p| && p[b.height] == b {
          var i :| 0 <= i < |res| && res[i] == b;
          assert res[i] == c[start + i];
        }
      }
    }
  }

  // ----- Runs

  datatype Call = GetTipHeight(c: seq<Block>) | GetRange(start: nat, count: nat, reply: seq<Block>, c: seq<Block>)

  function Apply(k: Cache, call: Call): Cache {
    match call
    case GetTipHeight(c) => k.(lastTip := if c == [] then 0 else |c| - 1)
    case GetRange(start, count, reply, c) => GetBlockRange(k, start, count, reply, c).cache
  }

  /** What is final after a call: the blocks at least minDepth below an observed tip. */
  function FinalAfter(k: Cache, p: seq<Block>, call: Call): seq<Block> {
    if call.GetTipHeight? && |call.c| >= k.minDepth && |call.c| - k.minDepth > |p|
    then call.c[..|call.c| - k.minDepth] else p
  }

  /** Every call is answered from a chain that keeps what is final, and every reply of
      the storage is proper. */
  ghost predicate Proper(k: Cache, p: seq<Block>, calls: seq<Call>)
    decreases |calls|
  {
    calls == [] ||
    (var call := calls[0];
     && call.c != [] && Heights(call.c) && p <= call.c
     && (call.GetRange? ==> FromStorage(k.stored, call.start, call.count, call.reply))
     && Proper(Apply(k, call), FinalAfter(k, p, call), calls[1..]))
  }

  /** All answers of a run are those of the base chain, and no call asks it twice. */
  ghost predicate AllExact(k: Cache, calls: seq<Call>)
    decreases |calls|
  {
    calls == [] ||
    (var call := calls[0];
     && (call.GetRange? ==>
           var a := GetBlockRange(k, call.start, call.count, call.reply, call.c);
           a.blocks == Range(call.c, call.start, call.count) && a.asked <= 1)
     && AllExact(Apply(k, call), calls[1..]))
  }

  lemma {:induction false} RunExact(k: Cache, p: seq<Block>, calls: seq<Call>)
    requires CacheInv(k, p) && Proper(k, p, calls)
    ensures AllExact(k, calls)
    decreases |calls|
  {
    if calls != [] {
      var call := calls[0];
      match call {
        case GetTipHeight(c) =>
          var p' := FinalAfter(k, p, call);
          assert p <= c;
          assert forall i | 0 <= i < |p| :: p[i] == c[i];
          assert CacheInv(Apply(k, call), p');
        case GetRange(start, count, reply, c) =>
          RangeExact(k, p, start, count, reply, c);
      }
      RunExact(Apply(k, call), FinalAfter(k, p, call), calls[1..]);
    }
  }

  // ----- The storage in memory

  /** Block i is the first one of the height. */
  ghost predicate FirstOf(blocks: seq<Block>, i: nat, height: nat) {
    i < |blocks| && blocks[i].height == height && forall k | 0 <= k < i :: blocks[k].height != height
  }

  /** Nothing is replaced, and each height that is new has its first block. */
  ghost predicate Emplaced(before: map<nat, Block>, after: map<nat, Block>, blocks: seq<Block>) {
    && (forall h | h in before :: h in after && after[h] == before[h])
    && (forall h | h in after && h !in before :: exists i: nat :: FirstOf(blocks, i, h) && after[h] == blocks[i])
    && (forall b | b in blocks :: b.height in after)
  }

  lemma EmplacedRange(before: map<nat, Block>, after: map<nat, Block>, start: nat, count: nat, c: seq<Block>)
    requires Heights(c) && Emplaced(before, after, Range(c, start, count))
    ensures forall h | h in before :: h in after && after[h] == before[h]
    ensures forall h | h in after && h !in before :: start <= h < start + count && h < |c| && after[h] == c[h]
    ensures start + count <= |c| ==> forall h | start <= h < start + count :: h in after
  {
    var res := Range(c, start, count);
    assert forall i | 0 <= i < |res| :: res[i] == c[start + i];
    forall h | start <= h < start + count <= |c| ensures h in after {
      assert res[h - start].height == h;
    }
  }

  class InMemoryBlockStorage {
    var data: map<nat, Block>

    ghost predicate Valid()
      reads this
    {
      forall h | h in data :: data[h].height == h
    }

    ghost function Stored(): set<Block>
      reads this
    {
      set h | h in data :: data[h]
    }

    constructor ()
      ensures Valid() && data == map[]
    {
      data := map[];
    }

    /** Blocks whose height is already stored are not replaced. */
    method Store(blocks: seq<Block>)
      requires Valid()
      modifies this
      ensures Valid() && Stored() <= old(Stored()) + set b | b in blocks
      ensures Emplaced(old(data), data, blocks)
    {
      for i := 0 to |blocks|
        invariant Valid() && Stored() <= old(Stored()) + set b | b in blocks
        invariant forall h | h in old(data) :: h in data && data[h] == old(data)[h]
        invariant forall h | h in data && h !in old(data) ::
          exists j: nat :: FirstOf(blocks, j, h) && data[h] == blocks[j]
        invariant forall k | 0 <= k < i :: blocks[k].height in data
      {
        var blk := blocks[i];
        assert blk.height !in data ==> FirstOf(blocks, i, blk.height);
        if blk.height !in data { data := data[blk.height := blk]; }
      }
    }

    /** The next stored height after h. */
    method NextHeight(h: nat) returns (r: Option<nat>)
      ensures r.None? ==> forall k | k in data :: k <= h
      ensures r.Some? ==> r.value in data && r.value > h && forall k | k in data && k > h :: r.value <= k
    {
      r := None;
      var todo := data.Keys;
      while todo != {}
        invariant todo <= data.Keys
        invariant r.None? ==> forall k | k in data && k !in todo :: k <= h
        invariant r.Some? ==> r.value in data && r.value > h
        invariant r.Some? ==> forall k | k in data && k > h && k !in todo :: r.value <= k
        decreases todo
      {
        var k :| k in todo;
        todo := todo - {k};
        if k > h && (r.None? || k < r.value) { r := Some(k); }
      }
    }

    method GetRange(start: nat, count: nat) returns (res: seq<Block>)
      requires Valid()
      ensures FromStorage(Stored(), start, count, res)
      ensures count > 0 ==>
        (|res| == count <==> forall h | start <= h < start + count :: h in data)
      ensures count > 0 ==> res == [] || |res| == count
      ensures count == 0 ==> |res| == if start in data then 1 else 0
      ensures forall i | 0 <= i < |res| :: start + i in data && res[i] == data[start + i]
    {
      if start !in data { return []; }
      var at := start;
      res := [data[start]];
      while |res| < count
        invariant |res| >= 1 && at == start + |res| - 1 && at in data
        invariant |res| == 1 || |res| <= count
        invariant forall h | start <= h <= at :: h in data
        invariant forall i | 0 <= i < |res| ::
          res[i].height == start + i && res[i].height in data && data[res[i].height] == res[i]
      {
        var next := NextHeight(at);
        if next.None? || data[next.value].height != res[|res| - 1].height + 1 {
          assert at + 1 !in data;
          return [];
        }
        at := next.value;
        res := res + [data[at]];
      }
      forall b | b in res ensures b in Stored() {
        var i :| 0 <= i < |res| && res[i] == b;
      }
    }
  }

  /** A range that is deep enough exists in full. */
  lemma DeepCovered(k: Cache, p: seq<Block>, start: nat, count: nat, c: seq<Block>)
    requires CacheInv(k, p) && p <= c && start + count + k.minDepth <= k.lastTip + 1
    ensures start + count <= |c|
  {
  }

  lemma FewerStored(k: Cache, k': Cache, p: seq<Block>)
    requires CacheInv(k, p) && k'.minDepth == k.minDepth && k'.lastTip == k.lastTip && k'.stored <= k.stored
    ensures CacheInv(k', p)
  {
  }

  /** The caching chain with the storage in memory. */
  class BlockCacheChain {
    const store: InMemoryBlockStorage
    const minDepth: nat
    var lastTipHeight: nat

    constructor (store: InMemoryBlockStorage, minDepth: nat)
      ensures this.store == store && this.minDepth == minDepth && lastTipHeight == 0
    {
      this.store, this.minDepth, lastTipHeight := store, minDepth, 0;
    }

    ghost function Current(): Cache
      reads this, store
    {
      Cache(minDepth, lastTipHeight, store.Stored())
    }

    method QueryTipHeight(c: seq<Block>, ghost p: seq<Block>) returns (h: nat)
      requires c != [] && CacheInv(Current(), p) && p <= c
      modifies this
      ensures h == |c| - 1 && lastTipHeight == h
      ensures CacheInv(Current(), FinalAfter(old(Current()), p, GetTipHeight(c)))
    {
      lastTipHeight := |c| - 1;
      h := lastTipHeight;
      assert forall i | 0 <= i < |p| :: p[i] == c[i];
    }

    /** All blocks of a range are in the storage. */
    ghost predicate Cached(start: nat, count: nat)
      reads store
    {
      if count == 0 then start !in store.data else forall h | start <= h < start + count :: h in store.data
    }

    /** Answers like the base chain, from the storage where that has all blocks; a range
        that is deep enough is in the storage afterwards, so that it is asked for once. */
    method QueryBlockRange(start: nat, count: nat, c: seq<Block>, ghost p: seq<Block>)
      returns (res: seq<Block>, asked: bool)
      requires store.Valid() && CacheInv(Current(), p) && p <= c && Heights(c)
      modifies store
      ensures store.Valid() && CacheInv(Current(), p)
      ensures res == Range(c, start, count)
      ensures asked <==> start + count + minDepth > lastTipHeight + 1 || !old(Cached(start, count))
      ensures start + count + minDepth <= lastTipHeight + 1 ==> forall h | start <= h < start + count :: h in store.data
      ensures !asked || start + count + minDepth > lastTipHeight + 1 ==> store.data == old(store.data)
      ensures forall h | h in old(store.data) :: h in store.data && store.data[h] == old(store.data)[h]
      ensures forall h | h in store.data && h !in old(store.data) ::
        start <= h < start + count && h < |c| && store.data[h] == c[h]
    {
      hide FromStorage, CacheInv, Heights, Emplaced;
      if start + count + minDepth > lastTipHeight + 1 {
        return Range(c, start, count), true;
      }
      res := store.GetRange(start, count);
      RangeExact(Current(), p, start, count, res, c);
      if |res| == count { return res, false; }
      DeepCovered(Current(), p, start, count, c);
      res, asked := Range(c, start, count), true;
      ghost var after := GetBlockRange(Current(), start, count, [], c).cache;
      store.Store(res);
      EmplacedRange(old(store.data), store.data, start, count, c);
      FewerStored(after, Current(), p);
    }
  }
}
