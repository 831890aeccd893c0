/** The block tree that the base chain, the local chainstate and the game
    processes all talk about.  A block hash determines the parent and the height
    of the block; what else a block carries is opaque payload. */
module BlockTree {

  datatype Option<+T> = None | Some(value: T)

  /** A block hash, or the empty string that stands for no block. */
  datatype Hash = NoHash | Hash(id: nat)

  /** The data of a block that is only stored and passed on. */
  datatype Payload = Payload(id: nat)

  datatype Block = Block(hash: Hash, parent: Hash, height: nat, payload: Payload)

  /** What a hash determines about its block. */
  datatype Node = Node(parent: Hash, height: nat)

  /** All blocks that exist anywhere, stored locally or not. */
  type Tree = imap<Hash, Node>

  /** Heights count from the genesis: a block above height zero has a parent in
      the tree, exactly one height below. */
  ghost predicate Rooted(u: Tree, h: Hash)
    requires h in u
  {
    if u[h].height == 0 then u[h].parent !in u
    else u[h].parent in u && u[u[h].parent].height + 1 == u[h].height
  }

  ghost predicate WellFormed(u: Tree) {
    forall h {:trigger Rooted(u, h)} :: h in u ==> Rooted(u, h)
  }

  /** The block data is authentic. */
  ghost predicate Fits(u: Tree, b: Block) {
    b.hash in u && u[b.hash] == Node(b.parent, b.height)
  }

  // ----- Ancestry

  ghost function AncestorAt(u: Tree, h: Hash, k: nat): (a: Hash)
    requires WellFormed(u) && h in u && k <= u[h].height
    ensures a in u && u[a].height == k
    decreases u[h].height
  {
    if u[h].height == k then h
    else
      assert Rooted(u, h);
      AncestorAt(u, u[h].parent, k)
  }

  /** Block a is an ancestor of block d, or d itself. */
  ghost predicate Descends(u: Tree, d: Hash, a: Hash)
    requires WellFormed(u)
  {
    d in u && a in u && u[a].height <= u[d].height && AncestorAt(u, d, u[a].height) == a
  }

  lemma {:induction false} AncestorCompose(u: Tree, h: Hash, j: nat, k: nat)
    requires WellFormed(u) && h in u && k <= j <= u[h].height
    ensures AncestorAt(u, AncestorAt(u, h, j), k) == AncestorAt(u, h, k)
    decreases u[h].height
  {
    if j < u[h].height {
      assert Rooted(u, h);
      AncestorCompose(u, u[h].parent, j, k);
    }
  }

  lemma DescendsTrans(u: Tree, d: Hash, m: Hash, a: Hash)
    requires WellFormed(u) && Descends(u, d, m) && Descends(u, m, a)
    ensures Descends(u, d, a)
  {
    AncestorCompose(u, d, u[m].height, u[a].height);
  }

  /** Two ancestors of one block are ancestors of one another. */
  lemma DescendsLinear(u: Tree, d: Hash, m: Hash, a: Hash)
    requires WellFormed(u) && Descends(u, d, m) && Descends(u, d, a)
    requires u[a].height <= u[m].height
    ensures Descends(u, m, a)
  {
    AncestorCompose(u, d, u[m].height, u[a].height);
  }

  lemma DescendsParent(u: Tree, d: Hash, a: Hash)
    requires WellFormed(u) && Descends(u, d, a) && d != a
    ensures u[d].parent in u && u[u[d].parent].height + 1 == u[d].height
    ensures Descends(u, u[d].parent, a)
    ensures u[a].height < u[d].height
  {
    assert Rooted(u, d);
  }

  lemma ParentDescends(u: Tree, h: Hash)
    requires WellFormed(u) && h in u && u[h].height > 0
    ensures u[h].parent in u && u[u[h].parent].height + 1 == u[h].height
    ensures Descends(u, h, u[h].parent)
  {
    assert Rooted(u, h);
  }

  // ----- Snapshots of the base chain

  /** A snapshot of the base chain: its blocks from the genesis to the tip. */
  ghost predicate IsChain(u: Tree, c: seq<Block>) {
    && |c| > 0
    && (forall i | 0 <= i < |c| :: Fits(u, c[i]) && c[i].height == i)
    && (forall i, j | 0 <= i && j == i + 1 < |c| :: c[j].parent == c[i].hash)
  }

  function Min(a: nat, b: nat): nat { if a < b then a else b }

  function Max(a: int, b: int): int { if a < b then b else a }

  /** What GetBlockRange answers on a snapshot. */
  function Range(c: seq<Block>, start: nat, count: nat): seq<Block> {
    if start >= |c| then [] else c[start..Min(start + count, |c|)]
  }

  /** What GetMainchainHeight answers on a snapshot. */
  function HeightOf(c: seq<Block>, h: Hash): (r: int)
    ensures -1 <= r < |c|
    ensures r >= 0 ==> c[r].hash == h
    ensures r == -1 ==> forall b | b in c :: b.hash != h
  {
    if c == [] then -1
    else if c[|c| - 1].hash == h then |c| - 1
    else HeightOf(c[..|c| - 1], h)
  }

  /** A range as Sync relies on it: consecutive heights from start on, linked by hash. */
  ghost predicate LinkedRange(bs: seq<Block>, start: int) {
    && (forall i | 0 <= i < |bs| :: bs[i].height == start + i)
    && (forall i, j | 0 <= i && j == i + 1 < |bs| :: bs[j].parent == bs[i].hash)
  }

  lemma {:induction false} ChainAncestor(u: Tree, c: seq<Block>, i: nat, k: nat)
    requires WellFormed(u) && IsChain(u, c) && k <= i < |c|
    ensures AncestorAt(u, c[i].hash, k) == c[k].hash
    ensures Descends(u, c[i].hash, c[k].hash)
    decreases i
  {
    assert Fits(u, c[i]) && Fits(u, c[k]);
    if k < i {
      assert c[i].parent == c[i - 1].hash;
      ChainAncestor(u, c, i - 1, k);
      assert Rooted(u, c[i].hash);
    }
  }

  /** On a chain the height of a hash is its index. */
  lemma ChainHeight(u: Tree, c: seq<Block>, i: nat)
    requires WellFormed(u) && IsChain(u, c) && i < |c|
    ensures HeightOf(c, c[i].hash) == i
  {
  }
}
