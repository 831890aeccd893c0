/** The Xaya Core connector: the backward walk from a fixed end hash; and how block
    ranges of both connectors are answers of the kind that Sync relies on. */
module CoreChain {
  import opened BlockTree
  import opened Notify

  /** What the node says about its best chain, and about the block at the end height
      (None if there is none at that moment). */
  datatype Info = Info(blocks: nat, best: Hash, endHash: Option<Hash>)

  datatype CoreRange = CoreBlocks(blocks: seq<Block>) | CoreAborted | StillTrying

  /** The node knows the blocks of the tree, under their hashes. */
  ghost predicate Node(u: Tree, node: map<Hash, Block>) {
    WellFormed(u) && forall h | h in node :: node[h].hash == h && Fits(u, node[h])
  }

  /** The node still has the ancestry of a block, down to height start. */
  ghost predicate HasAncestry(u: Tree, node: map<Hash, Block>, h: Hash, start: nat)
    requires WellFormed(u)
  {
    h in u && start <= u[h].height && forall k | start <= k <= u[h].height :: AncestorAt(u, h, k) in node
  }

  /** Each answer about the best chain names blocks of the heights it says, which the
      node can serve together with their ancestry. */
  ghost predicate Honest(u: Tree, node: map<Hash, Block>, start: nat, end: nat, i: Info)
    requires WellFormed(u)
  {
    && i.best in u && u[i.best].height == i.blocks
    && (start <= i.blocks ==> HasAncestry(u, node, i.best, start))
    && (i.endHash.Some? && start <= end ==>
          HasAncestry(u, node, i.endHash.value, start) && u[i.endHash.value].height == end)
  }

  /** The walk back from the block top, which is not below start: it ends, no CHECK
      fails, and it yields the linked blocks from start to top. */
  method WalkBack(start: nat, top: Hash, node: map<Hash, Block>, ghost u: Tree) returns (ok: bool, res: seq<Block>)
    requires Node(u, node) && HasAncestry(u, node, top, start)
    ensures ok
    ensures res != [] && LinkedRange(res, start) && Last(res).hash == top
    ensures forall b | b in res :: Fits(u, b) && b.hash in node && node[b.hash] == b
  {
    var back := [];
    var endHash := top;
    while true
      invariant HasAncestry(u, node, endHash, start)
      invariant forall i | 0 <= i < |back| :: Fits(u, back[i]) && back[i].height == u[top].height - i
      invariant forall i | 0 <= i < |back| :: back[i].hash in node && node[back[i].hash] == back[i]
      invariant forall i, j | 0 <= i && j == i + 1 < |back| :: back[i].parent == back[j].hash
      invariant if back == [] then endHash == top else back[0].hash == top && back[|back| - 1].parent == endHash
      invariant u[endHash].height + |back| == u[top].height
      decreases u[endHash].height
    {
      assert AncestorAt(u, endHash, u[endHash].height) in node;
      var cur := node[endHash];
      if cur.height < start { return false, []; }
      back := back + [cur];
      if cur.height <= start { break; }
      ParentAncestry(u, node, endHash, start);
      endHash := cur.parent;
    }
    ok, res := true, Reversed(back);
    var n := |back|;
    assert forall i | 0 <= i < n :: res[i] == back[n - 1 - i];
    forall i, j | 0 <= i && j == i + 1 < n ensures res[j].parent == res[i].hash {
      assert back[n - 1 - j].parent == back[n - 1 - i].hash;
    }
    forall b | b in res ensures Fits(u, b) && b.hash in node && node[b.hash] == b {
      var i :| 0 <= i < n && res[i] == b;
    }
  }

  lemma ParentAncestry(u: Tree, node: map<Hash, Block>, h: Hash, start: nat)
    requires Node(u, node) && HasAncestry(u, node, h, start) && u[h].height > start
    ensures HasAncestry(u, node, u[h].parent, start) && u[u[h].parent].height + 1 == u[h].height
  {
    ParentDescends(u, h);
    forall k | start <= k <= u[u[h].parent].height ensures AncestorAt(u, u[h].parent, k) in node {
      assert AncestorAt(u, h, k) in node;
    }
  }

  /** An answer that makes GetBlockRange ask again. */
  predicate AsksAgain(end: nat, i: Info) { i.blocks > end && i.endHash.None? }

  /** The blocks that follow from an answer about the best chain: from start to the end
      height or the tip, up to the block named for it. */
  ghost predicate Answered(start: nat, end: nat, i: Info, blocks: seq<Block>) {
    if i.blocks < start then blocks == []
    else
      && start + |blocks| == Min(i.blocks, end) + 1 && blocks != []
      && Some(Last(blocks).hash) == if i.blocks <= end then Some(i.best) else i.endHash
  }

  /** GetBlockRange, with the answers to as many queries for the end block as it takes. */
  method GetBlockRange(start: nat, count: nat, infos: seq<Info>, node: map<Hash, Block>, ghost u: Tree)
    returns (r: CoreRange)
    requires Node(u, node) && (count > 0 ==> forall i | i in infos :: Honest(u, node, start, start + count - 1, i))
    ensures r.CoreAborted? <==> count > 0 && start + count - 1 >= 0x1_0000_0000_0000_0000
    ensures r.StillTrying? <==> !r.CoreAborted? && count > 0 && forall i | i in infos :: AsksAgain(start + count - 1, i)
    ensures r.CoreBlocks? ==> LinkedRange(r.blocks, start) && |r.blocks| <= count
    ensures r.CoreBlocks? ==> forall b | b in r.blocks :: Fits(u, b) && b.hash in node && node[b.hash] == b
    ensures r.CoreBlocks? ==>
      if count == 0 then r.blocks == []
      else exists n | 0 <= n < |infos| ::
        && Answered(start, start + count - 1, infos[n], r.blocks)
        && forall k | 0 <= k < n :: AsksAgain(start + count - 1, infos[k])
  {
    if count == 0 { return CoreBlocks([]); }
    var endHeight := start + count - 1;
    if endHeight >= 0x1_0000_0000_0000_0000 { return CoreAborted; }
    for n := 0 to |infos|
      invariant forall k | 0 <= k < n :: AsksAgain(endHeight, infos[k])
    {
      var i := infos[n];
      assert i in infos && Honest(u, node, start, endHeight, i);
      if i.blocks < start {
        assert Answered(start, endHeight, i, []);
        return CoreBlocks([]);
      }
      var endHash := if i.blocks <= endHeight then Some(i.best) else i.endHash;
      if endHash.Some? {
        var ok, res := WalkBack(start, endHash.value, node, u);
        if !ok { return CoreAborted; }
        assert Last(res) in res && Fits(u, Last(res));
        assert Answered(start, endHeight, i, res);
        return CoreBlocks(res);
      }
    }
    return StillTrying;
  }

  // ----- The contract that Sync relies on

  /** The ancestry of a block as a snapshot; what is below the range is not looked at. */
  ghost function Ancestry(u: Tree, h: Hash): (c: seq<Block>)
    requires WellFormed(u) && h in u
    ensures |c| == u[h].height + 1
    decreases u[h].height
  {
    var b := Block(h, u[h].parent, u[h].height, Payload(0));
    if u[h].height == 0 then [b] else assert Rooted(u, h); Ancestry(u, u[h].parent) + [b]
  }

  lemma {:induction false} AncestryIsChain(u: Tree, h: Hash)
    requires WellFormed(u) && h in u
    ensures IsChain(u, Ancestry(u, h)) && Last(Ancestry(u, h)).hash == h
    decreases u[h].height
  {
    if u[h].height > 0 {
      assert Rooted(u, h);
      AncestryIsChain(u, u[h].parent);
    }
  }

  lemma {:induction false} LinkedAncestor(u: Tree, bs: seq<Block>, start: nat, i: nat)
    requires WellFormed(u) && LinkedRange(bs, start) && i < |bs| && forall b | b in bs :: Fits(u, b)
    ensures Fits(u, Last(bs)) && AncestorAt(u, Last(bs).hash, start + i) == bs[i].hash
    decreases |bs| - i
  {
    assert Last(bs) in bs && bs[i] in bs;
    if i < |bs| - 1 {
      LinkedAncestor(u, bs, start, i + 1);
      assert bs[i + 1] in bs && bs[i + 1].parent == bs[i].hash;
      AncestorCompose(u, Last(bs).hash, start + i + 1, start + i);
      assert Rooted(u, bs[i + 1].hash);
    }
  }

  /** Any linked range of authentic blocks, of either connector, is the answer of some
      snapshot of the base chain; that is all that Sync assumes of an answer. */
  lemma RangeOfSomeChain(u: Tree, bs: seq<Block>, start: nat, count: nat) returns (c: seq<Block>)
    requires WellFormed(u) && bs != [] && |bs| <= count && LinkedRange(bs, start) && forall b | b in bs :: Fits(u, b)
    ensures IsChain(u, c) && Range(c, start, count) == bs && Last(c) == Last(bs)
  {
    var top := Last(bs);
    assert top in bs;
    var a := Ancestry(u, top.hash);
    AncestryIsChain(u, top.hash);
    c := a[..start] + bs;
    forall i | 0 <= i < |c| ensures Fits(u, c[i]) && c[i].height == i {
      if i >= start { assert c[i] == bs[i - start] && bs[i - start] in bs; } else { assert c[i] == a[i]; }
    }
    forall i, j | 0 <= i && j == i + 1 < |c| ensures c[j].parent == c[i].hash {
      if i >= start {
        assert c[i] == bs[i - start] && c[j] == bs[j - start];
      } else if j == start {
        LinkedAncestor(u, bs, start, 0);
        ChainAncestor(u, a, |a| - 1, start);
        assert Fits(u, bs[0]) && Fits(u, a[start]) && a[start].parent == a[i].hash;
      } else {
        assert c[i] == a[i] && c[j] == a[j];
      }
    }
  }
}
