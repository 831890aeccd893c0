/** The blocks table of the chainstate, the walk from a block back to the main
    chain, and the invariant that relates branch numbers to the block tree. */
module ChainTable {
  import opened BlockTree

  /** A row of the table; the key is the hash.  Branch zero is the main chain. */
  datatype Row = Row(blk: Block, branch: nat)

  type Table = map<Hash, Row>

  predicate OnMain(t: Table, h: Hash) { h in t && t[h].branch == 0 }

  predicate OffMain(t: Table, h: Hash) { h in t && t[h].branch != 0 }

  // ----- The walk over parents

  predicate StepsDown(t: Table, h: Hash)
    requires h in t
  {
    t[h].blk.parent in t ==> t[t[h].blk.parent].blk.height < t[h].blk.height
  }

  ghost predicate Stepped(t: Table) {
    forall h {:trigger StepsDown(t, h)} :: h in t ==> StepsDown(t, h)
  }

  /** The blocks met by following parents one at a time from h, until a block
      that is on the main chain or missing. */
  ghost function ForkWalk(t: Table, h: Hash): (w: seq<Block>)
    requires Stepped(t)
    ensures w == [] <==> !OffMain(t, h)
    decreases if h in t then t[h].blk.height + 1 else 0
  {
    if !OffMain(t, h) then []
    else
      assert StepsDown(t, h);
      [t[h].blk] + ForkWalk(t, t[h].blk.parent)
  }

  /** The main-chain or missing block at which that walk stops. */
  ghost function ForkEnd(t: Table, h: Hash): (e: Hash)
    requires Stepped(t)
    ensures !OffMain(t, e)
    decreases if h in t then t[h].blk.height + 1 else 0
  {
    if !OffMain(t, h) then h
    else
      assert StepsDown(t, h);
      ForkEnd(t, t[h].blk.parent)
  }

  function Hashes(w: seq<Block>): set<Hash> { set b | b in w :: b.hash }

  // ----- The invariant

  /** Every row holds authentic block data under its own hash. */
  ghost predicate Sound(u: Tree, t: Table) {
    WellFormed(u) && forall h | h in t :: t[h].blk.hash == h && Fits(u, t[h].blk)
  }

  lemma SoundIsStepped(u: Tree, t: Table)
    requires Sound(u, t)
    ensures Stepped(t)
  {
    forall h | h in t ensures StepsDown(t, h) {
      assert Rooted(u, h);
    }
  }

  /** The table's UNIQUE (branch, height) constraint. */
  predicate UniqueSlots(t: Table) {
    forall g, h | g in t && h in t && t[g].branch == t[h].branch && t[g].blk.height == t[h].blk.height :: g == h
  }

  /** Block g sits below h on the same side branch. */
  predicate Below(t: Table, g: Hash, h: Hash) {
    OffMain(t, g) && h in t && t[g].branch == t[h].branch && t[g].blk.height < t[h].blk.height
  }

  predicate ParentOnBranch(t: Table, h: Hash)
    requires h in t
  {
    t[h].blk.parent in t && t[t[h].blk.parent].branch == t[h].branch
  }

  /** Side branches have no gaps and are linked by parents. */
  ghost predicate Contiguous(t: Table) {
    forall g, h {:trigger Below(t, g, h)} :: Below(t, g, h) ==> ParentOnBranch(t, h)
  }

  /** Block x is on the path from tip down to height lo. */
  ghost predicate Between(u: Tree, x: Hash, lo: nat, tip: Hash)
    requires WellFormed(u)
  {
    Descends(u, tip, x) && lo <= u[x].height
  }

  /** Branch zero is exactly the ancestry of tip from height lo upwards. */
  ghost predicate MainIs(u: Tree, t: Table, lo: nat, tip: Hash)
    requires WellFormed(u)
  {
    && OnMain(t, tip) && tip in u && lo <= u[tip].height
    && (forall x {:trigger OnMain(t, x)} {:trigger Between(u, x, lo, tip)} ::
          OnMain(t, x) <==> Between(u, x, lo, tip))
  }

  /** The missing parent of a side branch is a pruned main-chain block. */
  ghost predicate Grounded(u: Tree, t: Table, lo: nat, tip: Hash)
    requires WellFormed(u)
  {
    forall h {:trigger OffMain(t, h)} :: OffMain(t, h) && t[h].blk.parent !in t ==>
      Descends(u, tip, t[h].blk.parent) && u[t[h].blk.parent].height < lo
  }

  /** A side branch whose bottom parent is missing starts at or below height top, and not
      with a genesis block. */
  ghost predicate Bottomed(t: Table, top: nat) {
    forall h {:trigger OffMain(t, h)} :: OffMain(t, h) && t[h].blk.parent !in t ==> 0 < t[h].blk.height <= top
  }

  /** The branch numbers agree with the tree, with the main chain lo..tip. */
  ghost predicate Chained(u: Tree, t: Table, lo: nat, tip: Hash, top: nat) {
    && Sound(u, t)
    && UniqueSlots(t)
    && Contiguous(t)
    && MainIs(u, t, lo, tip)
    && lo <= top && Bottomed(t, top)
  }

  /** The inductive invariant of a chainstate with main chain lo..tip, as long as new
      tips descend from main[L]. */
  ghost predicate Steady(u: Tree, t: Table, lo: nat, tip: Hash) {
    Chained(u, t, lo, tip, lo)
  }

  /** The invariant if imported blocks also descend from the tip. */
  ghost predicate Good(u: Tree, t: Table, lo: nat, tip: Hash) {
    Steady(u, t, lo, tip) && Grounded(u, t, lo, tip)
  }

  /** The lowest unpruned block main[L]. */
  ghost function Lowest(u: Tree, lo: nat, tip: Hash): (b: Hash)
    requires WellFormed(u) && tip in u && lo <= u[tip].height
    ensures b in u && u[b].height == lo && Descends(u, tip, b)
  {
    AncestorAt(u, tip, lo)
  }

  // ----- Properties of walks

  /** Walks follow the ancestry, through stored side-branch blocks only. */
  lemma {:induction false} WalkIsAncestry(u: Tree, t: Table, h: Hash)
    requires Sound(u, t) && Stepped(t) && OffMain(t, h)
    ensures var w := ForkWalk(t, h);
      && |w| <= u[h].height + 1
      && (forall i | 0 <= i < |w| ::
            && OffMain(t, w[i].hash) && w[i] == t[w[i].hash].blk
            && w[i].height == u[h].height - i
            && Descends(u, h, w[i].hash))
      && w[0] == t[h].blk
      && (forall i, j | 0 <= i && j == i + 1 < |w| :: w[i].parent == w[j].hash)
      && w[|w| - 1].parent == ForkEnd(t, h)
    decreases u[h].height
  {
    var p := t[h].blk.parent;
    var w := ForkWalk(t, h);
    assert Fits(u, t[h].blk);
    if OffMain(t, p) {
      assert Rooted(u, h) && StepsDown(t, h);
      assert Fits(u, t[p].blk);
      WalkIsAncestry(u, t, p);
      var v := ForkWalk(t, p);
      assert w == [t[h].blk] + v;
      forall i | 0 <= i < |w|
        ensures OffMain(t, w[i].hash) && w[i] == t[w[i].hash].blk && w[i].height == u[h].height - i
        ensures Descends(u, h, w[i].hash)
      {
        if i > 0 {
          assert w[i] == v[i - 1];
          assert Descends(u, h, p);
          DescendsTrans(u, h, p, w[i].hash);
        }
      }
      forall i, j | 0 <= i && j == i + 1 < |w| ensures w[i].parent == w[j].hash {
        assert w[j] == v[i];
        if i > 0 { assert w[i] == v[i - 1]; }
      }
      assert w[|w| - 1] == v[|v| - 1];
    } else {
      assert w == [t[h].blk];
    }
  }

  /** The walk from any stored block, and the block at which it stops. */
  lemma WalkEnd(u: Tree, t: Table, h: Hash)
    requires Sound(u, t) && Stepped(t) && h in t
    ensures var w := ForkWalk(t, h); var e := ForkEnd(t, h);
      && h in u && u[h].height == t[h].blk.height
      && (w == [] ==> e == h)
      && (w != [] ==>
            var last := w[|w| - 1];
            && last.parent == e && last.height + |w| == u[h].height + 1
            && OffMain(t, last.hash) && t[last.hash].blk == last
            && (last.height > 0 ==> e in u))
      && (e in u ==> Descends(u, h, e) && u[e].height + |w| == u[h].height)
  {
    assert Fits(u, t[h].blk);
    if OffMain(t, h) {
      WalkIsAncestry(u, t, h);
      var w := ForkWalk(t, h);
      var last := w[|w| - 1];
      assert Fits(u, t[last.hash].blk) && Rooted(u, last.hash);
      if ForkEnd(t, h) in u {
        ParentDescends(u, last.hash);
        DescendsTrans(u, h, last.hash, ForkEnd(t, h));
      }
    }
  }

  /** A side-branch block that descends from main[L] walks back to a main-chain
      block: the walk can not run into pruned blocks. */
  lemma {:induction false} ForkEndOnMain(u: Tree, t: Table, lo: nat, tip: Hash, h: Hash)
    requires Steady(u, t, lo, tip) && Stepped(t) && h in t && Descends(u, h, Lowest(u, lo, tip))
    ensures var e := ForkEnd(t, h);
      && OnMain(t, e) && Descends(u, h, e) && Descends(u, e, Lowest(u, lo, tip))
      && u[e].height + |ForkWalk(t, h)| == u[h].height
    decreases u[h].height
  {
    var low := Lowest(u, lo, tip);
    assert Fits(u, t[h].blk);
    if OffMain(t, h) {
      assert Between(u, low, lo, tip);
      assert OnMain(t, low);
      DescendsParent(u, h, low);
      var p := t[h].blk.parent;
      ForkEndOnMain(u, t, lo, tip, p);
      ParentDescends(u, h);
      DescendsTrans(u, h, p, ForkEnd(t, p));
    }
  }

  /** Between two blocks of one side branch lies nothing but that branch. */
  lemma {:induction false} BranchSegment(u: Tree, t: Table, g: Hash, h: Hash, k: nat)
    requires Sound(u, t) && UniqueSlots(t) && Contiguous(t)
    requires Below(t, g, h) && t[g].blk.height <= k <= t[h].blk.height
    ensures k <= u[h].height
    ensures var a := AncestorAt(u, h, k); a in t && t[a].branch == t[h].branch
    ensures Descends(u, h, g)
    decreases t[h].blk.height
  {
    assert ParentOnBranch(t, h);
    assert Fits(u, t[h].blk) && Rooted(u, h) && Fits(u, t[g].blk);
    var p := t[h].blk.parent;
    assert Fits(u, t[p].blk);
    if p == g {
      assert k == u[h].height || k == u[g].height;
    } else {
      BranchSegment(u, t, g, p, if k == u[h].height then k - 1 else k);
      ParentDescends(u, h);
      DescendsTrans(u, h, p, g);
    }
  }

  /** The main chain determines its lowest height and its tip. */
  lemma MainUnique(u: Tree, t: Table, lo: nat, tip: Hash, lo': nat, tip': Hash)
    requires WellFormed(u) && MainIs(u, t, lo, tip) && MainIs(u, t, lo', tip')
    ensures lo == lo' && tip == tip'
  {
    assert OnMain(t, tip) && OnMain(t, tip');
    assert Between(u, tip, lo', tip') && Between(u, tip', lo, tip);
    assert tip == tip';
    assert Between(u, Lowest(u, lo, tip), lo, tip) && Between(u, Lowest(u, lo', tip'), lo', tip');
    assert OnMain(t, Lowest(u, lo, tip)) && OnMain(t, Lowest(u, lo', tip'));
  }
}
