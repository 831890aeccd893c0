/** The chainstate object: SQL statements on the blocks table, and the methods
    built from them, each proved against its function in module Reorg. */
module ChainstateDb {
  import opened BlockTree
  import opened ChainTable
  import opened Reorg
  import opened ChainRuns

  /** What the branch-number index needs in order to be usable. */
  ghost predicate Indexed(u: Tree, t: Table) {
    Sound(u, t) && UniqueSlots(t) && Contiguous(t)
  }

  /** Rows of a branch, up to an optional height, ordered by falling height. */
  ghost predicate BranchQuery(t: Table, branch: nat, limit: Option<nat>, q: seq<Block>) {
    && (forall i, j | 0 <= i < j < |q| :: q[i].height > q[j].height)
    && (forall b :: b in q <==> Selected(t, branch, limit, b))
  }

  predicate Selected(t: Table, branch: nat, limit: Option<nat>, b: Block) {
    b.hash in t && t[b.hash] == Row(b, branch) && (limit.Some? ==> b.height <= limit.value)
  }

  /** The rows in q, and then those in todo, make up the query. */
  ghost predicate Partial(t: Table, branch: nat, limit: Option<nat>, q: seq<Block>, todo: set<Hash>) {
    && (forall x | x in todo :: x in t && Selected(t, branch, limit, t[x].blk))
    && (forall i, j | 0 <= i < j < |q| :: q[i].height > q[j].height)
    && (forall b, x | b in q && x in todo :: t[x].blk.height < b.height)
    && (forall b :: Selected(t, branch, limit, b) <==> b in q || (b.hash in todo && t[b.hash].blk == b))
  }

  lemma QueryStart(u: Tree, t: Table, branch: nat, limit: Option<nat>, todo: set<Hash>)
    requires Sound(u, t) && todo == set x | x in t && Selected(t, branch, limit, t[x].blk)
    ensures Partial(t, branch, limit, [], todo)
  {
  }

  lemma PartialRows(u: Tree, t: Table, branch: nat, limit: Option<nat>, q: seq<Block>, todo: set<Hash>)
    requires Sound(u, t) && Partial(t, branch, limit, q, todo)
    ensures forall x | x in todo :: x in t && t[x].branch == branch
  {
  }

  lemma QueryMore(u: Tree, t: Table, branch: nat, limit: Option<nat>, q: seq<Block>, todo: set<Hash>, k: Hash)
    requires Sound(u, t) && Partial(t, branch, limit, q, todo) && k in todo && k in t
    requires forall x | x in todo && x != k :: x in t && t[x].blk.height < t[k].blk.height
    ensures Partial(t, branch, limit, q + [t[k].blk], todo - {k})
  {
    hide Selected;
    var q1 := q + [t[k].blk];
    assert forall b :: b in q1 <==> b in q || b == t[k].blk;
    assert forall i | 0 <= i < |q| :: q[i] in q;
  }

  lemma QueryEnd(t: Table, branch: nat, limit: Option<nat>, q: seq<Block>)
    requires Partial(t, branch, limit, q, {})
    ensures BranchQuery(t, branch, limit, q)
  {
  }

  /** The query result below its first row is the query one height lower. */
  lemma QueryTail(t: Table, branch: nat, q: seq<Block>)
    requires q != [] && q[0].height > 0 && BranchQuery(t, branch, Some(q[0].height), q)
    ensures BranchQuery(t, branch, Some(q[0].height - 1), q[1..])
  {
    var rest := q[1..];
    forall x ensures x in rest <==> Selected(t, branch, Some(q[0].height - 1), x) {
      if x in rest {
        var i :| 0 <= i < |rest| && rest[i] == x;
        assert q[i + 1] in q;
      }
      if Selected(t, branch, Some(q[0].height - 1), x) {
        assert Selected(t, branch, Some(q[0].height), x);
        var i :| 0 <= i < |q| && q[i] == x;
        assert rest[i - 1] == x;
      }
    }
  }

  lemma QueryHead(u: Tree, t: Table, h: Hash, q: seq<Block>)
    requires Indexed(u, t) && OffMain(t, h) && BranchQuery(t, t[h].branch, Some(t[h].blk.height), q)
    ensures q != [] && q[0] == t[h].blk
    ensures |q| > 1 ==> ParentOnBranch(t, h) && t[t[h].blk.parent].blk.height + 1 == t[h].blk.height
  {
    var b := t[h].blk;
    assert Selected(t, t[h].branch, Some(b.height), b);
    assert b in q && q[0] in q;
    if |q| > 1 {
      assert q[1] in q;
      assert Below(t, q[1].hash, h);
      assert Fits(u, b) && Rooted(u, h) && Fits(u, t[b.parent].blk);
    }
  }

  /** One range query covers a whole stretch of the parent walk. */
  lemma {:induction false} QueryIsWalk(u: Tree, t: Table, h: Hash, q: seq<Block>)
    requires Indexed(u, t) && Stepped(t) && OffMain(t, h)
    requires BranchQuery(t, t[h].branch, Some(t[h].blk.height), q)
    ensures q != [] && ForkWalk(t, h) == q + ForkWalk(t, q[|q| - 1].parent)
    ensures q[|q| - 1].height <= t[h].blk.height && OffMain(t, q[|q| - 1].hash)
    ensures t[q[|q| - 1].hash].blk == q[|q| - 1]
    decreases |q|
  {
    QueryHead(u, t, h, q);
    assert t[h].blk.hash == h;
    hide Indexed, BranchQuery;
    if |q| == 1 {
      assert q == [t[h].blk];
    } else {
      QueryTail(t, t[h].branch, q);
      QueryIsWalk(u, t, t[h].blk.parent, q[1..]);
      assert StepsDown(t, h);
      assert q == [t[h].blk] + q[1..];
    }
  }

  lemma NothingMoves(t: Table, cut: nat)
    ensures Movable(t, [], cut)
  {
  }

  lemma NoHashes(w: seq<Block>)
    ensures Hashes(w[..0]) == {}
  {
  }

  lemma Regroup(a: seq<Block>, b: seq<Block>, c: seq<Block>)
    ensures a + (b + c) == (a + b) + c
  {
  }

  lemma InsertIndexed(u: Tree, t: Table, b: Block)
    requires Indexed(u, t) && Fits(u, b) && b.hash !in t
    ensures Indexed(u, t[b.hash := Row(b, FreeBranch(t))])
  {
    var t1 := t[b.hash := Row(b, FreeBranch(t))];
    forall g, y | Below(t1, g, y) ensures ParentOnBranch(t1, y) {
      assert Below(t, g, y) && ParentOnBranch(t, y);
    }
  }

  lemma RelabelStep(t: Table, w: seq<Block>, i: nat, cut: nat, n: nat)
    requires i < |w| && w[i].hash in t
    ensures var t' := Relabel(t, Hashes(w[..i]), cut, n);
      w[i].hash in t' && t'[w[i].hash := Row(t'[w[i].hash].blk, 0)] == Relabel(t, Hashes(w[..i + 1]), cut, n)
  {
  }

  datatype SetTipOutcome = NotAttached | AttachedFrom(oldTip: Hash) | SetTipFailed

  class Chainstate {

    var blocks: Table
    ghost const tree: Tree

    constructor (ghost u: Tree)
      ensures blocks == map[] && tree == u
    {
      blocks := map[];
      tree := u;
    }

    // ----- SQL statements

    /** An INSERT or UPDATE: refused if it violates UNIQUE (branch, height). */
    method Execute(rows: Table) returns (ok: bool)
      modifies this
      ensures ok <==> UniqueSlots(rows)
      ensures blocks == if ok then rows else old(blocks)
    {
      ok := UniqueSlots(rows);
      if ok { blocks := rows; }
    }

    /** The highest block of branch zero. */
    method QueryTip() returns (r: Option<Hash>)
      requires UniqueSlots(blocks)
      ensures r == TipOf(blocks)
    {
      r := None;
      var todo := blocks.Keys;
      while todo != {}
        invariant todo <= blocks.Keys
        invariant r.None? ==> forall x | OnMain(blocks, x) :: x in todo
        invariant r.Some? ==> OnMain(blocks, r.value)
        invariant r.Some? ==> forall x | OnMain(blocks, x) && x !in todo ::
          blocks[x].blk.height <= blocks[r.value].blk.height
        decreases todo
      {
        var k :| k in todo;
        todo := todo - {k};
        if blocks[k].branch == 0 && (r.None? || blocks[k].blk.height > blocks[r.value].blk.height) {
          r := Some(k);
        }
      }
      if r.Some? {
        assert IsHighest(blocks, r.value);
        forall h | IsHighest(blocks, h) ensures h == r.value {
          assert OnMain(blocks, h) && OnMain(blocks, r.value);
        }
      }
    }

    /** The height of the highest or lowest main-chain block, or -1. */
    method GetMainchainHeight(descending: bool) returns (h: int)
      ensures h == if descending then TipHeight(blocks) else LowestHeight(blocks)
    {
      h := -1;
      ghost var best := NoHash;
      var todo := blocks.Keys;
      while todo != {}
        invariant todo <= blocks.Keys && h >= -1
        invariant h == -1 ==> forall x | OnMain(blocks, x) :: x in todo
        invariant h != -1 ==> OnMain(blocks, best) && blocks[best].blk.height == h
        invariant h != -1 && descending ==> forall x | OnMain(blocks, x) && x !in todo :: blocks[x].blk.height <= h
        invariant h != -1 && !descending ==> forall x | OnMain(blocks, x) && x !in todo :: h <= blocks[x].blk.height
        decreases todo
      {
        var k :| k in todo;
        todo := todo - {k};
        var b := blocks[k].blk.height;
        if blocks[k].branch == 0 && (h == -1 || if descending then b > h else b < h) {
          h, best := b, k;
        }
      }
      if h != -1 {
        assert if descending then IsHighest(blocks, best) else IsLowest(blocks, best);
        forall x | IsHighest(blocks, x) && descending ensures blocks[x].blk.height == h {
          assert OnMain(blocks, best) && OnMain(blocks, x);
        }
        forall x | IsLowest(blocks, x) && !descending ensures blocks[x].blk.height == h {
          assert OnMain(blocks, best) && OnMain(blocks, x);
        }
      }
    }

    /** The first branch number above all that are in use. */
    method GetFreeBranchNumber() returns (n: nat)
      ensures n == FreeBranch(blocks)
    {
      n := 1;
      var todo := blocks.Keys;
      ghost var best := NoHash;
      while todo != {}
        invariant todo <= blocks.Keys && n >= 1
        invariant n == 1 || (best in blocks && blocks[best].branch + 1 == n)
        invariant forall x | x in blocks && x !in todo :: blocks[x].branch < n
        decreases todo
      {
        var k :| k in todo;
        todo := todo - {k};
        if blocks[k].branch >= n {
          n, best := blocks[k].branch + 1, k;
        }
      }
      if blocks != map[] {
        ghost var top :| top in blocks && blocks[top].branch == MaxBranch(blocks);
        assert blocks[top].branch < n;
      }
    }

    /** SELECT on one branch, ordered by falling height. */
    method SelectBranch(branch: nat, limit: Option<nat>) returns (q: seq<Block>)
      requires Sound(tree, blocks) && UniqueSlots(blocks)
      ensures BranchQuery(blocks, branch, limit, q)
    {
      hide UniqueSlots, Partial, Selected, BranchQuery;
      var todo := set x | x in blocks && Selected(blocks, branch, limit, blocks[x].blk);
      q := [];
      QueryStart(tree, blocks, branch, limit, todo);
      while todo != {}
        invariant Partial(blocks, branch, limit, q, todo)
        decreases todo
      {
        PartialRows(tree, blocks, branch, limit, q, todo);
        var k := PickHighest(branch, todo);
        QueryMore(tree, blocks, branch, limit, q, todo, k);
        q := q + [blocks[k].blk];
        todo := todo - {k};
      }
      QueryEnd(blocks, branch, limit, q);
    }

    method PickHighest(branch: nat, s: set<Hash>) returns (k: Hash)
      requires UniqueSlots(blocks) && s != {}
      requires forall x | x in s :: x in blocks && blocks[x].branch == branch
      ensures k in s && forall x | x in s && x != k :: blocks[x].blk.height < blocks[k].blk.height
    {
      k :| k in s;
      var todo := s - {k};
      while todo != {}
        invariant k in s && todo <= s
        invariant forall x | x in s && x !in todo :: blocks[x].blk.height <= blocks[k].blk.height
        decreases todo
      {
        var y :| y in todo;
        todo := todo - {y};
        if blocks[y].blk.height > blocks[k].blk.height { k := y; }
      }
    }

    // ----- Queries of the chainstate

    method GetHeightForHash(hash: Hash) returns (r: Option<nat>)
      ensures r == if hash in blocks then Some(blocks[hash].blk.height) else None
    {
      r := if hash in blocks then Some(blocks[hash].blk.height) else None;
    }

    method GetHashForHeight(height: nat) returns (r: Option<Hash>)
      requires UniqueSlots(blocks)
      ensures r.Some? ==> OnMain(blocks, r.value) && blocks[r.value].blk.height == height
      ensures r.None? ==> forall x | OnMain(blocks, x) :: blocks[x].blk.height != height
    {
      var found := set x | x in blocks && blocks[x].branch == 0 && blocks[x].blk.height == height;
      if found == {} {
        r := None;
        forall x | OnMain(blocks, x) ensures blocks[x].blk.height != height { assert x !in found; }
      } else {
        var x :| x in found;
        r := Some(x);
      }
    }

    /** The walk from a block back to the main chain, found branch by branch. */
    method GetForkBranch(hash: Hash) returns (ok: bool, branch: seq<Block>)
      requires Indexed(tree, blocks)
      ensures ok == (hash in blocks)
      ensures Stepped(blocks) && branch == ForkWalk(blocks, hash)
    {
      SoundIsStepped(tree, blocks);
      hide UniqueSlots, Contiguous, BranchQuery, Sound, ForkWalk;
      branch := [];
      var curHash := hash;
      while true
        invariant ForkWalk(blocks, hash) == branch + ForkWalk(blocks, curHash)
        invariant branch == [] ==> curHash == hash
        invariant branch != [] ==> hash in blocks
        decreases if curHash in blocks then blocks[curHash].blk.height + 1 else 0
      {
        if curHash !in blocks {
          return branch != [], branch;
        }
        var row := blocks[curHash];
        if row.branch == 0 {
          return true, branch;
        }
        var q := SelectBranch(row.branch, Some(row.blk.height));
        QueryIsWalk(tree, blocks, curHash, q);
        var last := q[|q| - 1];
        assert StepsDown(blocks, last.hash);
        Regroup(branch, q, ForkWalk(blocks, last.parent));
        branch := branch + q;
        curHash := last.parent;
      }
    }

    // ----- Updates of the chainstate

    /** Relabels the blocks of a fork walk one by one; the main chain from height
        cut upwards has been moved away before. */
    method TakeIntoMain(ghost t: Table, branch: seq<Block>, ghost cut: nat) returns (ok: bool)
      requires Indexed(tree, t) && blocks == Relabel(t, {}, cut, FreeBranch(t))
      requires Movable(t, branch, cut)
      modifies this
      ensures ok && blocks == Relabel(t, Hashes(branch), cut, FreeBranch(t))
    {
      hide Relabel, MaxBranch, UniqueSlots, Contiguous, Sound;
      ok := true;
      assert branch[..0] == [] && Hashes([]) == {};
      for i := 0 to |branch|
        invariant ok && blocks == Relabel(t, Hashes(branch[..i]), cut, FreeBranch(t))
      {
        RelabelStep(t, branch, i, cut, FreeBranch(t));
        RelabelUnique(tree, t, branch, i + 1, cut);
        ok := Execute(blocks[branch[i].hash := Row(blocks[branch[i].hash].blk, 0)]);
      }
      assert branch[..|branch|] == branch;
    }

    /** Moves the main chain from height cut upwards to a new branch, and takes the blocks of
        a fork walk into its place. */
    method ReplaceMain(branch: seq<Block>, cut: nat) returns (ok: bool)
      requires Indexed(tree, blocks) && Movable(blocks, branch, cut)
      modifies this
      ensures ok && blocks == Relabel(old(blocks), Hashes(branch), cut, FreeBranch(old(blocks)))
    {
      hide Relabel, MaxBranch, UniqueSlots, Contiguous, Sound, Movable, Hashes;
      var n := GetFreeBranchNumber();
      RelabelUnique(tree, blocks, branch, 0, cut);
      NoHashes(branch);
      ok := Execute(Relabel(blocks, {}, cut, n));
      ok := TakeIntoMain(old(blocks), branch, cut);
    }

    method MarkAsTip(hash: Hash) returns (ok: bool)
      requires Indexed(tree, blocks) && hash in blocks
      modifies this
      ensures ok && Stepped(old(blocks)) && blocks == MarkTip(old(blocks), hash)
    {
      SoundIsStepped(tree, blocks);
      hide Relabel, MaxBranch, UniqueSlots, Contiguous, Sound, ForkWalk, Movable, Hashes;
      var branch := [];
      var cut := blocks[hash].blk.height + 1;
      NothingMoves(blocks, cut);
      if blocks[hash].branch != 0 {
        var known;
        known, branch := GetForkBranch(hash);
        if !known || branch == [] { return false; }
        WalkShape(tree, blocks, hash);
        cut := branch[|branch| - 1].height;
      }
      ok := ReplaceMain(branch, cut);
    }

    method Prune(untilHeight: nat)
      modifies this
      ensures blocks == PruneTable(old(blocks), untilHeight)
    {
      blocks := PruneTable(blocks, untilHeight);
    }

    method SetTip(blk: Block) returns (r: SetTipOutcome)
      requires Indexed(tree, blocks) && Fits(tree, blk)
      modifies this
      ensures match Reorg.SetTip(tree, old(blocks), blk)
        case Rejected => r.NotAttached? && blocks == old(blocks)
        case Attached(t', prev) => r == AttachedFrom(prev) && blocks == t'
        case Aborted => r.SetTipFailed?
    {
      var tip := QueryTip();
      if tip.None? { return NotAttached; }
      if blk.hash in blocks {
        if blocks[blk.hash].blk.parent != blk.parent || blocks[blk.hash].blk.height != blk.height {
          return SetTipFailed;
        }
        var ok := MarkAsTip(blk.hash);
        return if ok then AttachedFrom(tip.value) else SetTipFailed;
      }
      if blk.parent !in blocks { return NotAttached; }
      if blk.height != blocks[blk.parent].blk.height + 1 { return SetTipFailed; }
      var n := GetFreeBranchNumber();
      InsertIndexed(tree, blocks, blk);
      var ok := Execute(blocks[blk.hash := Row(blk, n)]);
      if !ok { return SetTipFailed; }
      ok := MarkAsTip(blk.hash);
      return if ok then AttachedFrom(tip.value) else SetTipFailed;
    }

    method ImportTip(blk: Block) returns (ok: bool)
      requires Indexed(tree, blocks) && Fits(tree, blk)
      modifies this
      ensures ok <==> Reorg.ImportTip(tree, old(blocks), blk).Imported?
      ensures ok ==> blocks == Reorg.ImportTip(tree, old(blocks), blk).table
    {
      hide Relabel, MaxBranch, UniqueSlots, Contiguous, Sound, ForkWalk, TipHeight, LowestHeight;
      var oldTip := GetMainchainHeight(true);
      if oldTip != -1 && oldTip >= blk.height { return false; }
      var known := GetHeightForHash(blk.hash);
      if known.Some? {
        ok := MarkAsTip(blk.hash);
      } else {
        InsertMainUnique(blk);
        ok := Execute(blocks[blk.hash := Row(blk, 0)]);
      }
      if !ok { return; }
      if blk.height > 0 { Prune(blk.height - 1); }
      var low := GetMainchainHeight(false);
      var high := GetMainchainHeight(true);
      ok := low == blk.height && high == blk.height;
    }

    /** A block above the tip has a free slot on the main chain. */
    lemma InsertMainUnique(blk: Block)
      requires Sound(tree, blocks) && UniqueSlots(blocks) && blk.hash !in blocks
      requires TipHeight(blocks) == -1 || TipHeight(blocks) < blk.height
      ensures UniqueSlots(blocks[blk.hash := Row(blk, 0)])
    {
      forall x | OnMain(blocks, x) ensures blocks[x].blk.height < blk.height {
        HighestExists(blocks, x);
      }
    }

    // ----- The sanity check

    /** Checks one branch as the loop of SanityCheck does. */
    method CheckBranch(branch: nat, lowest: int) returns (ok: bool)
      requires Sound(tree, blocks) && UniqueSlots(blocks) && branch != 0 && lowest == LowestHeight(blocks)
      requires exists x :: x in blocks && blocks[x].branch == branch
      ensures ok <==>
        forall h {:trigger OffMain(blocks, h)} | OffMain(blocks, h) && blocks[h].branch == branch :: SaneRow(blocks, h)
    {
      var q := SelectBranch(branch, None);
      hide UniqueSlots, LowestHeight, SaneRow, BranchQuery, SaneUpTo, Rows;
      QueryRows(tree, blocks, branch, q);
      SaneBranch(blocks, branch, q);
      for i := 0 to |q| - 1
        invariant SaneUpTo(blocks, q, i)
      {
        LinkedRow(tree, blocks, branch, q, i);
        SaneNext(blocks, branch, q, i);
        if q[i + 1].height + 1 != q[i].height || q[i + 1].hash != q[i].parent {
          return false;
        }
      }
      var b := q[|q| - 1];
      LastRow(tree, blocks, branch, q);
      SaneNext(blocks, branch, q, |q| - 1);
      if b.parent !in blocks {
        ok := b.height <= lowest;
      } else {
        ok := blocks[b.parent].branch != branch && blocks[b.parent].blk.height == b.height - 1;
      }
    }

    method SanityCheck() returns (ok: bool)
      requires Sound(tree, blocks) && UniqueSlots(blocks)
      ensures ok <==> Sane(blocks)
    {
      if blocks == map[] { return true; }
      var branches := set x | x in blocks :: blocks[x].branch;
      var foundMain := 0 in branches;
      var lowest := GetMainchainHeight(false);
      var todo := branches;
      while todo != {}
        invariant todo <= branches
        invariant forall h {:trigger OffMain(blocks, h)} | OffMain(blocks, h) && blocks[h].branch !in todo ::
          SaneRow(blocks, h)
        decreases todo
      {
        var b :| b in todo;
        todo := todo - {b};
        if b != 0 {
          var x :| x in blocks && blocks[x].branch == b;
          var sane := CheckBranch(b, lowest);
          if !sane { return false; }
        }
      }
      if foundMain {
        var x :| x in blocks && blocks[x].branch == 0;
        assert OnMain(blocks, x);
      }
      return foundMain;
    }
  }

  /** If there is a main-chain block, there is a highest one. */
  lemma {:induction false} HighestExists(t: Table, x: Hash)
    requires OnMain(t, x)
    ensures TipHeight(t) >= t[x].blk.height
  {
    var h := x;
    var seen := {x};
    while !IsHighest(t, h)
      invariant OnMain(t, h) && t[x].blk.height <= t[h].blk.height
      invariant seen <= t.Keys && forall y | y in seen :: t[y].blk.height <= t[h].blk.height
      decreases t.Keys - seen
    {
      var y :| OnMain(t, y) && t[y].blk.height > t[h].blk.height;
      h := y;
      seen := seen + {y};
    }
    forall g | IsHighest(t, g) ensures t[g].blk.height >= t[x].blk.height {
      assert OnMain(t, x);
    }
  }

  /** The rows of a side branch are exactly the blocks of q. */
  ghost predicate Rows(t: Table, branch: nat, q: seq<Block>) {
    && (forall k | 0 <= k < |q| :: OffMain(t, q[k].hash) && t[q[k].hash] == Row(q[k], branch))
    && (forall h | OffMain(t, h) && t[h].branch == branch :: exists k :: 0 <= k < |q| && q[k].hash == h)
  }

  /** The first i rows pass the check. */
  ghost predicate SaneUpTo(t: Table, q: seq<Block>, i: nat) {
    i <= |q| && forall k | 0 <= k < i :: OffMain(t, q[k].hash) && SaneRow(t, q[k].hash)
  }

  lemma SaneNext(t: Table, branch: nat, q: seq<Block>, i: nat)
    requires Rows(t, branch, q) && i < |q|
    ensures OffMain(t, q[i].hash) && t[q[i].hash] == Row(q[i], branch)
    ensures SaneUpTo(t, q, i) ==> (SaneUpTo(t, q, i + 1) <==> SaneRow(t, q[i].hash))
    ensures !SaneRow(t, q[i].hash) ==> !SaneUpTo(t, q, |q|)
  {
    hide SaneRow;
  }

  lemma SaneBranch(t: Table, branch: nat, q: seq<Block>)
    requires Rows(t, branch, q)
    ensures SaneUpTo(t, q, 0)
    ensures SaneUpTo(t, q, |q|) <==>
      forall h {:trigger OffMain(t, h)} | OffMain(t, h) && t[h].branch == branch :: SaneRow(t, h)
  {
    hide SaneRow;
  }

  /** The query for a whole branch lists exactly its rows. */
  lemma QueryRows(u: Tree, t: Table, branch: nat, q: seq<Block>)
    requires Sound(u, t) && BranchQuery(t, branch, None, q) && branch != 0
    requires exists x :: x in t && t[x].branch == branch
    ensures |q| > 0 && Rows(t, branch, q)
  {
    forall k | 0 <= k < |q| ensures Selected(t, branch, None, q[k]) {
      assert q[k] in q;
    }
    forall h | h in t && t[h].branch == branch ensures exists k :: 0 <= k < |q| && q[k].hash == h {
      assert Selected(t, branch, None, t[h].blk);
      var k :| 0 <= k < |q| && q[k] == t[h].blk;
      assert q[k].hash == h;
    }
  }

  lemma LinkedRow(u: Tree, t: Table, branch: nat, q: seq<Block>, i: nat)
    requires Sound(u, t) && BranchQuery(t, branch, None, q) && branch != 0 && i + 1 < |q|
    requires Rows(t, branch, q)
    ensures OffMain(t, q[i].hash)
    ensures SaneRow(t, q[i].hash) <==> q[i + 1].height + 1 == q[i].height && q[i + 1].hash == q[i].parent
  {
    assert q[i] in q && q[i + 1] in q;
    assert Below(t, q[i + 1].hash, q[i].hash);
    if SaneRow(t, q[i].hash) {
      assert Selected(t, branch, None, t[q[i].parent].blk);
      var k :| 0 <= k < |q| && q[k] == t[q[i].parent].blk;
    }
  }

  lemma LastRow(u: Tree, t: Table, branch: nat, q: seq<Block>)
    requires Sound(u, t) && BranchQuery(t, branch, None, q) && branch != 0 && q != []
    requires Rows(t, branch, q)
    ensures var b := q[|q| - 1];
      OffMain(t, b.hash) &&
      (SaneRow(t, b.hash) <==>
        if b.parent !in t then b.height <= LowestHeight(t)
        else t[b.parent].branch != branch && t[b.parent].blk.height == b.height - 1)
  {
    var b := q[|q| - 1];
    forall g | g in t && t[g].branch == branch ensures t[g].blk.height >= b.height {
      assert Selected(t, branch, None, t[g].blk);
      var k :| 0 <= k < |q| && q[k] == t[g].blk;
    }
    assert Bottom(t, b.hash);
  }
}
