/** The operations of the chainstate as functions on its table, and what they do
    to the main chain: SetTip, ImportTip and Prune keep the invariant, a reorg
    can be undone, and pruning and importing leave the fork walks alone. */
module Reorg {
  import opened BlockTree
  import opened ChainTable

  // ----- Queries

  ghost predicate IsHighest(t: Table, h: Hash) {
    OnMain(t, h) && forall x | OnMain(t, x) :: t[x].blk.height <= t[h].blk.height
  }

  ghost predicate IsLowest(t: Table, h: Hash) {
    OnMain(t, h) && forall x | OnMain(t, x) :: t[h].blk.height <= t[x].blk.height
  }

  ghost function TipOf(t: Table): Option<Hash> {
    if exists h :: IsHighest(t, h) then (var h :| IsHighest(t, h); Some(h)) else None
  }

  ghost function TipHeight(t: Table): int {
    if exists h :: IsHighest(t, h) then (var h :| IsHighest(t, h); t[h].blk.height) else -1
  }

  ghost function LowestHeight(t: Table): int {
    if exists h :: IsLowest(t, h) then (var h :| IsLowest(t, h); t[h].blk.height) else -1
  }

  ghost function MaxBranch(t: Table): (m: nat)
    ensures forall h | h in t :: t[h].branch <= m
    ensures t != map[] ==> exists h :: h in t && t[h].branch == m
    ensures t == map[] ==> m == 0
    decreases |t|
  {
    if t == map[] then 0
    else
      var k :| k in t;
      var rest := t - {k};
      assert forall h | h in t :: h == k || h in rest;
      var m := MaxBranch(rest);
      assert t[k].branch > m || rest == map[] || exists h :: h in rest && h in t && t[h].branch == m;
      if t[k].branch > m || rest == map[] then t[k].branch else m
  }

  ghost function FreeBranch(t: Table): nat { MaxBranch(t) + 1 }

  // ----- Updates

  /** Takes the blocks ws into the main chain, and the main chain from height cut
      upwards out to branch n. */
  function Relabel(t: Table, ws: set<Hash>, cut: nat, n: nat): Table {
    map x | x in t ::
      if x in ws then Row(t[x].blk, 0)
      else if t[x].branch == 0 && t[x].blk.height >= cut then Row(t[x].blk, n)
      else t[x]
  }

  ghost function MarkTip(t: Table, h: Hash): (t': Table)
    requires Stepped(t) && h in t
    ensures t'.Keys == t.Keys
    ensures forall x | x in t :: t'[x].blk == t[x].blk
  {
    var w := ForkWalk(t, h);
    var cut := if w == [] then t[h].blk.height + 1 else w[|w| - 1].height;
    Relabel(t, Hashes(w), cut, FreeBranch(t))
  }

  function PruneTable(t: Table, k: nat): Table {
    map x | x in t && !(t[x].branch == 0 && t[x].blk.height <= k) :: t[x]
  }

  datatype SetTipResult = Rejected | Attached(table: Table, oldTip: Hash) | Aborted

  ghost function SetTip(u: Tree, t: Table, b: Block): (r: SetTipResult)
    requires Sound(u, t) && Fits(u, b)
    ensures r.Attached? ==> Sound(u, r.table)
  {
    SoundIsStepped(u, t);
    var prev := TipOf(t);
    if prev.None? then Rejected
    else if b.hash in t then
      if t[b.hash].blk.parent != b.parent || t[b.hash].blk.height != b.height then Aborted
      else Attached(MarkTip(t, b.hash), prev.value)
    else if b.parent !in t then Rejected
    else if b.height != t[b.parent].blk.height + 1 then Aborted
    else
      var t1 := t[b.hash := Row(b, FreeBranch(t))];
      SoundIsStepped(u, t1);
      Attached(MarkTip(t1, b.hash), prev.value)
  }

  datatype ImportResult = Imported(table: Table) | ImportAborted

  ghost function ImportTip(u: Tree, t: Table, b: Block): (r: ImportResult)
    requires Sound(u, t) && Fits(u, b)
    ensures r.Imported? ==> Sound(u, r.table)
  {
    SoundIsStepped(u, t);
    if TipHeight(t) != -1 && TipHeight(t) >= b.height then ImportAborted
    else
      var t1 := if b.hash in t then MarkTip(t, b.hash) else t[b.hash := Row(b, 0)];
      var t2 := if b.height > 0 then PruneTable(t1, b.height - 1) else t1;
      if LowestHeight(t2) == b.height && TipHeight(t2) == b.height then Imported(t2) else ImportAborted
  }

  // ----- What the queries answer

  lemma Queries(u: Tree, t: Table, lo: nat, tip: Hash)
    requires Sound(u, t) && MainIs(u, t, lo, tip)
    ensures TipOf(t) == Some(tip) && TipHeight(t) == u[tip].height && LowestHeight(t) == lo
    ensures t[tip].blk.height == u[tip].height && lo <= u[tip].height
  {
    var low := Lowest(u, lo, tip);
    forall x | OnMain(t, x) ensures lo <= t[x].blk.height <= u[tip].height {
      assert Between(u, x, lo, tip) && Fits(u, t[x].blk);
    }
    assert Fits(u, t[tip].blk);
    assert Between(u, low, lo, tip) && OnMain(t, low) && Fits(u, t[low].blk);
    assert IsHighest(t, tip) && IsLowest(t, low);
    forall h | IsHighest(t, h) ensures h == tip {
      assert OnMain(t, tip) && OnMain(t, h) && Between(u, h, lo, tip) && Fits(u, t[h].blk);
    }
    forall h | IsLowest(t, h) ensures t[h].blk.height == lo {
      assert OnMain(t, low) && OnMain(t, h);
    }
  }

  // ----- Marking a tip

  /** A stored block with stored parent is one above it. */
  lemma StepAbove(u: Tree, t: Table, x: Hash)
    requires Sound(u, t) && x in t
    ensures x in u && t[x].blk.height == u[x].height
    ensures t[x].blk.parent in t ==> t[t[x].blk.parent].blk.height + 1 == t[x].blk.height
  {
    assert Fits(u, t[x].blk) && Rooted(u, x);
  }

  /** Above the lowest height, the parent of a main-chain block is on the main chain. */
  lemma MainParent(u: Tree, t: Table, lo: nat, tip: Hash, x: Hash)
    requires Sound(u, t) && MainIs(u, t, lo, tip) && OnMain(t, x) && t[x].blk.height > lo
    ensures var p := t[x].blk.parent; OnMain(t, p) && Fits(u, t[p].blk) && u[p].height + 1 == t[x].blk.height
  {
    assert Fits(u, t[x].blk) && Between(u, x, lo, tip);
    ParentDescends(u, x);
    DescendsTrans(u, tip, x, t[x].blk.parent);
    assert Between(u, t[x].blk.parent, lo, tip);
  }

  lemma WalkHas(u: Tree, t: Table, h: Hash, x: Hash)
    requires Sound(u, t) && Stepped(t) && OffMain(t, h)
    ensures var w := ForkWalk(t, h);
      && |w| <= u[h].height + 1
      && w[|w| - 1].height == u[h].height + 1 - |w|
      && (x in Hashes(w) ==> OffMain(t, x))
      && (x in Hashes(w) <==> Descends(u, h, x) && u[x].height > u[h].height - |w|)
  {
    hide ForkWalk;
    WalkIsAncestry(u, t, h);
    var w := ForkWalk(t, h);
    forall b | b in w
      ensures OffMain(t, b.hash) && Fits(u, b) && Descends(u, h, b.hash) && b.height > u[h].height - |w|
    {
      var i :| 0 <= i < |w| && w[i] == b;
    }
    if Descends(u, h, x) && u[x].height > u[h].height - |w| {
      assert w[u[h].height - u[x].height] in w;
    }
  }

  /** The blocks of a walk are the side-branch ancestors above the fork point. */
  lemma WalkMembers(u: Tree, t: Table, h: Hash, x: Hash)
    requires Sound(u, t) && Stepped(t) && h in t && ForkEnd(t, h) in u
    ensures x in Hashes(ForkWalk(t, h)) <==> Descends(u, h, x) && u[x].height > u[ForkEnd(t, h)].height
    ensures x in Hashes(ForkWalk(t, h)) ==> OffMain(t, x)
    ensures ForkWalk(t, h) != [] ==> ForkWalk(t, h)[|ForkWalk(t, h)| - 1].height == u[ForkEnd(t, h)].height + 1
    ensures t[h].blk.height == u[h].height && Descends(u, h, ForkEnd(t, h))
  {
    WalkEnd(u, t, h);
    if OffMain(t, h) {
      WalkHas(u, t, h, x);
    }
  }

  /** The walk reaches down to the main chain, or past its lower end. */
  ghost predicate Reaches(t: Table, lo: nat, h: Hash)
    requires Stepped(t)
  {
    var w := ForkWalk(t, h);
    OnMain(t, ForkEnd(t, h)) || (w != [] && w[|w| - 1].height <= lo)
  }

  /** The lowest main-chain height once h is the tip. */
  ghost function NewLow(t: Table, lo: nat, h: Hash): (r: nat)
    requires Stepped(t)
    ensures Reaches(t, lo, h) ==> r <= lo
  {
    var w := ForkWalk(t, h);
    if OnMain(t, ForkEnd(t, h)) || w == [] then lo else w[|w| - 1].height
  }

  /** The main chain after MarkTip is exactly the ancestry of the new tip. */
  lemma MarkTipMain(u: Tree, t: Table, lo: nat, tip: Hash, h: Hash)
    requires Sound(u, t) && MainIs(u, t, lo, tip) && Stepped(t) && h in t && Reaches(t, lo, h)
    ensures MainIs(u, MarkTip(t, h), NewLow(t, lo, h), h)
  {
    hide MaxBranch;
    if OnMain(t, ForkEnd(t, h)) {
      MarkTipJoins(u, t, lo, tip, h);
    } else {
      MarkTipReplaces(u, t, lo, tip, h);
    }
  }

  /** The walk meets the main chain: what is below stays. */
  lemma MarkTipJoins(u: Tree, t: Table, lo: nat, tip: Hash, h: Hash)
    requires Sound(u, t) && MainIs(u, t, lo, tip) && Stepped(t) && h in t && OnMain(t, ForkEnd(t, h))
    ensures MainIs(u, MarkTip(t, h), lo, h)
  {
    hide MaxBranch;
    var t' := MarkTip(t, h);
    var e := ForkEnd(t, h);
    assert Fits(u, t[e].blk) && Between(u, e, lo, tip);
    WalkMembers(u, t, h, e);
    forall x ensures OnMain(t', x) <==> Between(u, x, lo, h) {
      WalkMembers(u, t, h, x);
      if x in t { assert Fits(u, t[x].blk); }
      if Between(u, x, lo, h) && u[x].height <= u[e].height {
        DescendsLinear(u, h, e, x);
        DescendsTrans(u, tip, e, x);
        assert Between(u, x, lo, tip);
      }
      if OnMain(t', x) && x !in Hashes(ForkWalk(t, h)) {
        assert OnMain(t, x) && Between(u, x, lo, tip);
        DescendsLinear(u, tip, e, x);
        DescendsTrans(u, h, e, x);
      }
    }
    assert Between(u, h, lo, h);
  }

  /** The walk ends below the main chain: the walk takes its place. */
  lemma MarkTipReplaces(u: Tree, t: Table, lo: nat, tip: Hash, h: Hash)
    requires Sound(u, t) && MainIs(u, t, lo, tip) && Stepped(t) && h in t && Reaches(t, lo, h)
    requires !OnMain(t, ForkEnd(t, h))
    ensures MainIs(u, MarkTip(t, h), NewLow(t, lo, h), h)
  {
    hide MaxBranch;
    var t' := MarkTip(t, h);
    var low := NewLow(t, lo, h);
    WalkEnd(u, t, h);
    forall x ensures OnMain(t', x) <==> Between(u, x, low, h) {
      WalkHas(u, t, h, x);
      if OnMain(t, x) { assert Fits(u, t[x].blk) && Between(u, x, lo, tip); }
    }
    assert Between(u, h, low, h);
  }

  /** A walk that takes a block of a side branch takes all that is below it, too. */
  lemma {:induction false} WalkTakesBranch(u: Tree, t: Table, h: Hash, g: Hash, y: Hash)
    requires Sound(u, t) && UniqueSlots(t) && Contiguous(t) && Stepped(t) && OffMain(t, h)
    requires y in Hashes(ForkWalk(t, h)) && Below(t, g, y)
    ensures g in Hashes(ForkWalk(t, h))
    decreases t[y].blk.height
  {
    WalkIsAncestry(u, t, h);
    var w := ForkWalk(t, h);
    var i :| 0 <= i < |w| && w[i].hash == y;
    assert ParentOnBranch(t, y) && Fits(u, t[y].blk) && Rooted(u, y);
    var p := t[y].blk.parent;
    assert Fits(u, t[p].blk) && OffMain(t, p);
    assert w[i + 1].hash == p && w[i + 1] in w;
    if p != g {
      WalkTakesBranch(u, t, h, g, p);
    }
  }

  /** A side branch that loses blocks to the main chain keeps only an upper part. */
  lemma MarkTipContiguous(u: Tree, t: Table, lo: nat, tip: Hash, h: Hash)
    requires Sound(u, t) && UniqueSlots(t) && Contiguous(t) && MainIs(u, t, lo, tip) && Stepped(t) && h in t
    ensures Contiguous(MarkTip(t, h))
  {
    hide MaxBranch;
    var t' := MarkTip(t, h);
    var ws := Hashes(ForkWalk(t, h));
    forall g, y | Below(t', g, y) ensures ParentOnBranch(t', y) {
      assert Fits(u, t[y].blk) && Fits(u, t[g].blk);
      if OffMain(t, h) {
        WalkHas(u, t, h, g);
        WalkHas(u, t, h, y);
        WalkHas(u, t, h, t[y].blk.parent);
      }
      if OnMain(t, y) {
        assert OnMain(t, g) && Between(u, g, lo, tip);
        MainParent(u, t, lo, tip, y);
      } else {
        assert Below(t, g, y) && ParentOnBranch(t, y);
        var p := t[y].blk.parent;
        assert Fits(u, t[p].blk) && Rooted(u, y);
        if p in ws {
          assert g != p;
          assert Below(t, g, p);
          WalkTakesBranch(u, t, h, g, p);
          assert false;
        }
      }
    }
  }

  /** Side-branch blocks, top-down from height cut on, that can go to the main chain. */
  ghost predicate Movable(t: Table, w: seq<Block>, cut: nat) {
    && (forall k | 0 <= k < |w| :: OffMain(t, w[k].hash) && t[w[k].hash].blk == w[k] && w[k].height >= cut)
    && (forall j, k | 0 <= j < k < |w| :: w[j].height > w[k].height)
  }

  /** A fork walk as MarkAsTip uses it. */
  lemma WalkShape(u: Tree, t: Table, h: Hash)
    requires Sound(u, t) && Stepped(t) && OffMain(t, h)
    ensures var w := ForkWalk(t, h); w != [] && Movable(t, w, w[|w| - 1].height)
  {
    WalkIsAncestry(u, t, h);
  }

  /** No statement of MarkAsTip runs into the table's UNIQUE constraint. */
  lemma RelabelUnique(u: Tree, t: Table, w: seq<Block>, i: nat, cut: nat)
    requires Sound(u, t) && UniqueSlots(t) && i <= |w|
    requires Movable(t, w, cut)
    ensures UniqueSlots(Relabel(t, Hashes(w[..i]), cut, FreeBranch(t)))
  {
  }

  lemma MarkTipUnique(u: Tree, t: Table, h: Hash)
    requires Sound(u, t) && UniqueSlots(t) && Stepped(t) && h in t
    ensures UniqueSlots(MarkTip(t, h))
  {
    hide Relabel, MaxBranch, UniqueSlots;
    var w := ForkWalk(t, h);
    if w != [] { WalkShape(u, t, h); }
    var cut := if w == [] then t[h].blk.height + 1 else w[|w| - 1].height;
    assert w[..|w|] == w;
    RelabelUnique(u, t, w, |w|, cut);
  }

  lemma MarkTipBottomed(u: Tree, t: Table, lo: nat, tip: Hash, h: Hash, top: nat)
    requires Sound(u, t) && MainIs(u, t, lo, tip) && lo <= top && Bottomed(t, top) && Stepped(t) && h in t
    ensures Bottomed(MarkTip(t, h), top)
  {
    hide ForkWalk, MaxBranch;
    var t' := MarkTip(t, h);
    WalkEnd(u, t, h);
    forall x | OffMain(t', x) && t'[x].blk.parent !in t' ensures 0 < t'[x].blk.height <= top {
      if OnMain(t, x) {
        StepAbove(u, t, x);
        assert Between(u, x, lo, tip);
        if t[x].blk.height > lo { MainParent(u, t, lo, tip, x); }
        if OnMain(t, ForkEnd(t, h)) { RelabelLeaves(u, t, lo, tip, h, x); }
      } else {
        assert OffMain(t, x);
      }
    }
  }

  /** Taking a stored block whose walk reaches far enough as the tip. */
  lemma MarkTipChained(u: Tree, t: Table, lo: nat, tip: Hash, h: Hash, top: nat)
    requires Chained(u, t, lo, tip, top) && Stepped(t) && h in t && Reaches(t, lo, h)
    ensures Chained(u, MarkTip(t, h), NewLow(t, lo, h), h, top)
  {
    hide Relabel, MaxBranch, UniqueSlots, Contiguous, Bottomed, MainIs, ForkWalk;
    MarkTipMain(u, t, lo, tip, h);
    MarkTipContiguous(u, t, lo, tip, h);
    MarkTipUnique(u, t, h);
    MarkTipBottomed(u, t, lo, tip, h, top);
    assert Sound(u, MarkTip(t, h));
  }

  lemma MarkTipGrounded(u: Tree, t: Table, lo: nat, tip: Hash, h: Hash)
    requires Good(u, t, lo, tip) && Stepped(t) && h in t && Descends(u, h, Lowest(u, lo, tip))
    ensures Grounded(u, MarkTip(t, h), lo, h)
  {
    hide Relabel, MaxBranch, UniqueSlots, Contiguous, Bottomed;
    var t' := MarkTip(t, h);
    var low := Lowest(u, lo, tip);
    ForkEndOnMain(u, t, lo, tip, h);
    forall x | OffMain(t', x) && t'[x].blk.parent !in t'
      ensures Descends(u, h, t'[x].blk.parent) && u[t'[x].blk.parent].height < lo
    {
      var p := t[x].blk.parent;
      assert Fits(u, t[x].blk);
      if OnMain(t, x) {
        RelabelLeaves(u, t, lo, tip, h, x);
        MainParent(u, t, lo, tip, x);
      } else {
        assert OffMain(t, x);
        DescendsLinear(u, tip, low, p);
        DescendsTrans(u, h, low, p);
      }
    }
  }

  /** A main-chain block that leaves the main chain is above the fork point. */
  lemma RelabelLeaves(u: Tree, t: Table, lo: nat, tip: Hash, h: Hash, x: Hash)
    requires Sound(u, t) && MainIs(u, t, lo, tip) && Stepped(t) && h in t && OnMain(t, ForkEnd(t, h))
    requires OnMain(t, x) && OffMain(MarkTip(t, h), x)
    ensures t[x].blk.height > lo
  {
    hide MaxBranch;
    var e := ForkEnd(t, h);
    assert Fits(u, t[e].blk) && Between(u, e, lo, tip) && Fits(u, t[x].blk);
    WalkMembers(u, t, h, x);
  }

  lemma MarkTipGood(u: Tree, t: Table, lo: nat, tip: Hash, h: Hash)
    requires Steady(u, t, lo, tip) && Stepped(t) && h in t && Descends(u, h, Lowest(u, lo, tip))
    ensures Steady(u, MarkTip(t, h), lo, h)
    ensures Good(u, t, lo, tip) ==> Good(u, MarkTip(t, h), lo, h)
  {
    hide Relabel, MaxBranch, UniqueSlots, Contiguous, Bottomed, MainIs, Grounded, MarkTip, ForkWalk, Sound;
    ForkEndOnMain(u, t, lo, tip, h);
    MarkTipChained(u, t, lo, tip, h, lo);
    if Good(u, t, lo, tip) { MarkTipGrounded(u, t, lo, tip, h); }
  }

  /** Adding a child of a stored block on a fresh branch. */
  lemma InsertGood(u: Tree, t: Table, lo: nat, tip: Hash, top: nat, b: Block)
    requires Chained(u, t, lo, tip, top) && Fits(u, b) && b.hash !in t && b.parent in t
    ensures Chained(u, t[b.hash := Row(b, FreeBranch(t))], lo, tip, top)
    ensures Grounded(u, t, lo, tip) ==> Grounded(u, t[b.hash := Row(b, FreeBranch(t))], lo, tip)
  {
    var t1 := t[b.hash := Row(b, FreeBranch(t))];
    forall g, y | Below(t1, g, y) ensures ParentOnBranch(t1, y) {
      assert Below(t, g, y) && ParentOnBranch(t, y);
    }
    forall x ensures OnMain(t1, x) <==> Between(u, x, lo, tip) {
      assert OnMain(t1, x) <==> OnMain(t, x);
    }
    forall x | OffMain(t1, x) && t1[x].blk.parent !in t1
      ensures OffMain(t, x) && t[x].blk.parent !in t && t1[x] == t[x]
    {
    }
  }

  /** The walks of stored blocks are not affected by that. */
  lemma {:induction false} InsertKeepsWalk(u: Tree, t: Table, b: Block, h: Hash)
    requires Sound(u, t) && Fits(u, b) && b.hash !in t && Stepped(t) && Stepped(t[b.hash := Row(b, FreeBranch(t))])
    requires h in u ==> u[h].height < b.height
    ensures var t1 := t[b.hash := Row(b, FreeBranch(t))];
      ForkWalk(t1, h) == ForkWalk(t, h) && ForkEnd(t1, h) == ForkEnd(t, h)
    decreases if h in u then u[h].height + 1 else 0
  {
    hide MaxBranch;
    var t1 := t[b.hash := Row(b, FreeBranch(t))];
    if OffMain(t, h) {
      assert Fits(u, t[h].blk) && Rooted(u, h);
      assert StepsDown(t, h) && StepsDown(t1, h);
      InsertKeepsWalk(u, t, b, t[h].blk.parent);
    }
  }

  // ----- SetTip

  /** The lowest main-chain height after a successful SetTip. */
  ghost function LowAfter(t: Table, lo: nat, b: Block): int
    requires Stepped(t)
  {
    if OnMain(t, b.hash) || OnMain(t, ForkEnd(t, b.parent)) then lo else b.height - |ForkWalk(t, b.parent)|
  }

  /** SetTip never aborts.  It rejects the block exactly if neither the block nor its
      parent is stored; otherwise the main chain becomes the ancestry of the block, as far
      down as that is stored. */
  lemma SetTipChained(u: Tree, t: Table, lo: nat, tip: Hash, top: nat, b: Block)
    requires Chained(u, t, lo, tip, top) && Fits(u, b) && Stepped(t)
    requires b.hash in t || b.parent in t
    requires OnMain(t, b.hash) || OnMain(t, ForkEnd(t, b.parent)) || b.height - |ForkWalk(t, b.parent)| <= lo
    ensures var r := SetTip(u, t, b);
      && r.Attached? && r.oldTip == tip
      && LowAfter(t, lo, b) >= 0 && Chained(u, r.table, LowAfter(t, lo, b), b.hash, top)
  {
    hide Relabel, MaxBranch, UniqueSlots, Contiguous, Bottomed, MainIs, MarkTip;
    Queries(u, t, lo, tip);
    if b.hash in t {
      assert Fits(u, t[b.hash].blk);
      WalkEnd(u, t, b.hash);
      MarkTipChained(u, t, lo, tip, b.hash, top);
    } else {
      assert Fits(u, t[b.parent].blk) && Rooted(u, b.hash);
      InsertMarkChained(u, t, lo, tip, top, b);
    }
  }

  lemma InsertMarkChained(u: Tree, t: Table, lo: nat, tip: Hash, top: nat, b: Block)
    requires Chained(u, t, lo, tip, top) && Fits(u, b) && Stepped(t) && b.hash !in t && b.parent in t
    requires OnMain(t, ForkEnd(t, b.parent)) || b.height - |ForkWalk(t, b.parent)| <= lo
    ensures var t1 := t[b.hash := Row(b, FreeBranch(t))];
      && Stepped(t1) && LowAfter(t, lo, b) >= 0
      && Chained(u, MarkTip(t1, b.hash), LowAfter(t, lo, b), b.hash, top)
  {
    hide Relabel, MaxBranch, UniqueSlots, Contiguous, Bottomed, MainIs, MarkTip;
    var t1 := t[b.hash := Row(b, FreeBranch(t))];
    assert Fits(u, t[b.parent].blk) && Rooted(u, b.hash);
    InsertGood(u, t, lo, tip, top, b);
    SoundIsStepped(u, t1);
    InsertedWalk(u, t, b);
    WalkEnd(u, t1, b.hash);
    MarkTipChained(u, t1, lo, tip, b.hash, top);
  }

  lemma InsertedWalk(u: Tree, t: Table, b: Block)
    requires Sound(u, t) && Fits(u, b) && b.hash !in t && b.parent in t && Stepped(t)
    requires Stepped(t[b.hash := Row(b, FreeBranch(t))]) && u[b.parent].height < b.height
    ensures var t1 := t[b.hash := Row(b, FreeBranch(t))];
      && ForkWalk(t1, b.hash) == [b] + ForkWalk(t, b.parent) && ForkEnd(t1, b.hash) == ForkEnd(t, b.parent)
      && (OnMain(t1, ForkEnd(t, b.parent)) <==> OnMain(t, ForkEnd(t, b.parent)))
  {
    hide MaxBranch;
    var t1 := t[b.hash := Row(b, FreeBranch(t))];
    InsertKeepsWalk(u, t, b, b.parent);
    assert OffMain(t1, b.hash) && StepsDown(t1, b.hash);
  }

  /** In a steady state that holds of every block. */
  lemma SetTipAny(u: Tree, t: Table, lo: nat, tip: Hash, b: Block)
    requires Steady(u, t, lo, tip) && Fits(u, b)
    ensures Stepped(t)
    ensures var r := SetTip(u, t, b);
      && (r.Rejected? <==> b.hash !in t && b.parent !in t)
      && (!r.Rejected? ==>
            && r.Attached? && r.oldTip == tip
            && 0 <= LowAfter(t, lo, b) <= lo && Chained(u, r.table, LowAfter(t, lo, b), b.hash, lo))
  {
    hide UniqueSlots, Contiguous, MainIs, MarkTip, MaxBranch;
    Queries(u, t, lo, tip);
    SoundIsStepped(u, t);
    if b.hash in t || b.parent in t {
      if b.hash in t { assert Fits(u, t[b.hash].blk) && (OnMain(t, b.hash) || OffMain(t, b.hash)); }
      if b.parent in t {
        WalkEnd(u, t, b.parent);
        assert Rooted(u, b.hash);
      }
      hide SetTip;
      SetTipChained(u, t, lo, tip, lo, b);
    }
  }

  /** For a block that descends from main[L], the main chain reaches down to the same L. */
  lemma SetTipGood(u: Tree, t: Table, lo: nat, tip: Hash, b: Block)
    requires Steady(u, t, lo, tip) && Fits(u, b) && Descends(u, b.hash, Lowest(u, lo, tip))
    ensures var r := SetTip(u, t, b);
      && (r.Rejected? <==> b.hash !in t && b.parent !in t)
      && (!r.Rejected? ==> r.Attached? && r.oldTip == tip && Steady(u, r.table, lo, b.hash))
      && (!r.Rejected? && Good(u, t, lo, tip) ==> Good(u, r.table, lo, b.hash))
  {
    hide UniqueSlots, Contiguous, MainIs, MarkTip, MaxBranch, Bottomed, Grounded;
    Queries(u, t, lo, tip);
    SoundIsStepped(u, t);
    if b.hash in t {
      assert Fits(u, t[b.hash].blk);
      MarkTipGood(u, t, lo, tip, b.hash);
    } else if b.parent in t {
      assert Fits(u, t[b.parent].blk) && Rooted(u, b.hash);
      var t1 := t[b.hash := Row(b, FreeBranch(t))];
      InsertGood(u, t, lo, tip, lo, b);
      SoundIsStepped(u, t1);
      MarkTipGood(u, t1, lo, tip, b.hash);
    }
  }

  /** SetTip loses no block and changes no block's data, and a new block is stored as it was
      handed in. */
  lemma SetTipKeepsBlocks(u: Tree, t: Table, b: Block)
    requires Sound(u, t) && Fits(u, b) && SetTip(u, t, b).Attached?
    ensures var t' := SetTip(u, t, b).table;
      && t'.Keys == t.Keys + {b.hash} && (forall x | x in t :: t'[x].blk == t[x].blk)
      && (b.hash !in t ==> t'[b.hash].blk == b)
  {
  }

  // ----- Prune

  /** Prune deletes exactly the main-chain blocks up to the height, and changes nothing else. */
  lemma PruneDeletes(t: Table, k: nat)
    ensures var t' := PruneTable(t, k);
      && (forall x :: x in t' <==> x in t && !(OnMain(t, x) && t[x].blk.height <= k))
      && (forall x | x in t' :: t'[x] == t[x])
  {
  }

  lemma PruneChained(u: Tree, t: Table, lo: nat, tip: Hash, top: nat, k: nat)
    requires Chained(u, t, lo, tip, top) && k < u[tip].height
    ensures Chained(u, PruneTable(t, k), Max(lo, k + 1), tip, Max(top, k + 1))
  {
    var t' := PruneTable(t, k);
    var lo' := Max(lo, k + 1);
    forall g, y | Below(t', g, y) ensures ParentOnBranch(t', y) {
      assert Below(t, g, y) && ParentOnBranch(t, y);
    }
    forall x ensures OnMain(t', x) <==> Between(u, x, lo', tip) {
      assert OnMain(t, x) <==> Between(u, x, lo, tip);
      if x in t { assert Fits(u, t[x].blk); }
    }
    forall x | OffMain(t', x) && t'[x].blk.parent !in t' ensures 0 < t'[x].blk.height <= Max(top, k + 1) {
      assert OffMain(t, x);
      StepAbove(u, t, x);
    }
    assert Descends(u, tip, tip);
    assert Between(u, tip, lo', tip);
  }

  lemma PruneGood(u: Tree, t: Table, lo: nat, tip: Hash, k: nat)
    requires Steady(u, t, lo, tip) && k < u[tip].height
    ensures Steady(u, PruneTable(t, k), Max(lo, k + 1), tip)
    ensures Good(u, t, lo, tip) ==> Good(u, PruneTable(t, k), Max(lo, k + 1), tip)
  {
    hide UniqueSlots, Contiguous, Bottomed;
    PruneChained(u, t, lo, tip, lo, k);
    var t' := PruneTable(t, k);
    if Good(u, t, lo, tip) {
      forall x | OffMain(t', x) && t'[x].blk.parent !in t'
        ensures Descends(u, tip, t'[x].blk.parent) && u[t'[x].blk.parent].height < Max(lo, k + 1)
      {
        var p := t[x].blk.parent;
        assert OffMain(t, x);
        if p in t {
          assert OnMain(t, p) && Between(u, p, lo, tip) && Fits(u, t[p].blk);
        }
      }
    }
  }

  // ----- ImportTip

  /** The table after importing a block whose ancestry is not stored. */
  lemma ImportUnknownGood(u: Tree, t: Table, lo: nat, tip: Hash, top: nat, b: Block)
    requires Chained(u, t, lo, tip, top) && top <= u[tip].height < b.height && Fits(u, b) && b.hash !in t
    ensures var t' := PruneTable(t[b.hash := Row(b, 0)], b.height - 1);
      && Steady(u, t', b.height, b.hash)
      && (forall x | OffMain(t, x) :: OffMain(t', x))
      && (Grounded(u, t, lo, tip) && Descends(u, b.hash, tip) ==> Grounded(u, t', b.height, b.hash))
  {
    var t1 := t[b.hash := Row(b, 0)];
    var t' := PruneTable(t1, b.height - 1);
    forall x ensures x in t' <==> x == b.hash || OffMain(t, x) {
      if OnMain(t, x) { assert Between(u, x, lo, tip) && Fits(u, t[x].blk); }
    }
    assert Sound(u, t');
    forall g, y | Below(t', g, y) ensures ParentOnBranch(t', y) {
      assert Below(t, g, y) && ParentOnBranch(t, y);
    }
    assert Descends(u, b.hash, b.hash);
    forall x ensures OnMain(t', x) <==> Between(u, x, b.height, b.hash) {
    }
    forall x | OffMain(t', x) && t'[x].blk.parent !in t'
      ensures 0 < t'[x].blk.height <= b.height
      ensures Grounded(u, t, lo, tip) && Descends(u, b.hash, tip) ==>
        Descends(u, b.hash, t'[x].blk.parent) && u[t'[x].blk.parent].height < b.height
    {
      var p := t[x].blk.parent;
      assert OffMain(t, x);
      StepAbove(u, t, x);
      if p in t {
        assert OnMain(t, p) && Between(u, p, lo, tip) && Fits(u, t[p].blk);
      }
      if Grounded(u, t, lo, tip) && Descends(u, b.hash, tip) { DescendsTrans(u, b.hash, tip, p); }
    }
  }

  /** The blocks that a known block above the tip leaves on the main chain. */
  lemma ImportKnownMain(u: Tree, t: Table, lo: nat, tip: Hash, b: Block)
    requires Sound(u, t) && MainIs(u, t, lo, tip) && Stepped(t) && Fits(u, b) && b.hash in t && u[tip].height < b.height
    ensures var t' := PruneTable(MarkTip(t, b.hash), b.height - 1);
      && MainIs(u, t', b.height, b.hash)
      && (forall x | x in t && t[x].blk.height >= b.height :: x in t')
  {
    hide MaxBranch;
    var t' := PruneTable(MarkTip(t, b.hash), b.height - 1);
    assert Fits(u, t[b.hash].blk);
    assert OnMain(t, b.hash) <==> Between(u, b.hash, lo, tip);
    WalkHas(u, t, b.hash, b.hash);
    assert Descends(u, b.hash, b.hash);
    forall x ensures OnMain(t', x) <==> Between(u, x, b.height, b.hash) {
      WalkHas(u, t, b.hash, x);
      if x in t { assert Fits(u, t[x].blk); }
      if OnMain(t, x) { assert Between(u, x, lo, tip); }
    }
  }

  lemma ImportKnownBottomed(u: Tree, t: Table, lo: nat, tip: Hash, top: nat, t': Table, h: nat)
    requires Sound(u, t) && MainIs(u, t, lo, tip) && Bottomed(t, top) && top <= u[tip].height < h
    requires t'.Keys <= t.Keys && (forall x | x in t' :: t'[x].blk == t[x].blk)
    requires forall x | x in t && t[x].blk.height >= h :: x in t'
    requires forall x | OffMain(t', x) && t'[x].blk.parent !in t :: t'[x].blk.height > 0
    ensures Bottomed(t', h)
  {
    forall x | OffMain(t', x) && t'[x].blk.parent !in t' ensures 0 < t'[x].blk.height <= h {
      assert OnMain(t, x) <==> Between(u, x, lo, tip);
      assert OnMain(t, x) || OffMain(t, x);
      StepAbove(u, t, x);
    }
  }

  /** Marking any tip makes no genesis block the bottom of a side branch. */
  lemma ImportKnownAbove(u: Tree, t: Table, lo: nat, tip: Hash, top: nat, h: Hash)
    requires Sound(u, t) && MainIs(u, t, lo, tip) && lo <= top && Bottomed(t, top) && Stepped(t) && h in t
    ensures var t1 := MarkTip(t, h); forall x | OffMain(t1, x) && t1[x].blk.parent !in t :: t1[x].blk.height > 0
  {
    hide MarkTip;
    MarkTipBottomed(u, t, lo, tip, h, top);
  }

  lemma ImportKnownGood(u: Tree, t: Table, lo: nat, tip: Hash, top: nat, b: Block)
    requires Chained(u, t, lo, tip, top) && Stepped(t) && Fits(u, b) && b.hash in t
    requires top <= u[tip].height < b.height
    ensures Steady(u, PruneTable(MarkTip(t, b.hash), b.height - 1), b.height, b.hash)
  {
    hide MarkTip, PruneTable, ForkWalk, UniqueSlots, Contiguous, MainIs, Bottomed;
    var t1 := MarkTip(t, b.hash);
    var t' := PruneTable(t1, b.height - 1);
    PruneDeletes(t1, b.height - 1);
    ImportKnownMain(u, t, lo, tip, b);
    MarkTipContiguous(u, t, lo, tip, b.hash);
    MarkTipUnique(u, t, b.hash);
    PruneIndexed(t1, b.height - 1);
    assert Sound(u, t');
    ImportKnownAbove(u, t, lo, tip, top, b.hash);
    ImportKnownBottomed(u, t, lo, tip, top, t', b.height);
  }

  lemma PruneIndexed(t: Table, k: nat)
    requires UniqueSlots(t) && Contiguous(t)
    ensures UniqueSlots(PruneTable(t, k)) && Contiguous(PruneTable(t, k))
  {
    var t' := PruneTable(t, k);
    forall g, y | Below(t', g, y) ensures ParentOnBranch(t', y) {
      assert Below(t, g, y) && ParentOnBranch(t, y);
    }
  }

  lemma ImportKnownGrounded(u: Tree, t: Table, lo: nat, tip: Hash, b: Block)
    requires Good(u, t, lo, tip) && Stepped(t) && Fits(u, b) && b.hash in t
    requires Descends(u, b.hash, tip) && u[tip].height < b.height
    ensures Good(u, PruneTable(MarkTip(t, b.hash), b.height - 1), b.height, b.hash)
  {
    hide Relabel, MaxBranch, PruneTable, UniqueSlots, Contiguous, Grounded, Bottomed;
    DescendsTrans(u, b.hash, tip, Lowest(u, lo, tip));
    MarkTipGood(u, t, lo, tip, b.hash);
    PruneGood(u, MarkTip(t, b.hash), lo, b.hash, b.height - 1);
  }

  /** Importing any block above the tip never aborts and leaves it as the whole main
      chain, whether it is stored or not, and whether it descends from the tip or not. */
  lemma {:induction false} ImportGood(u: Tree, t: Table, lo: nat, tip: Hash, top: nat, b: Block)
    requires Chained(u, t, lo, tip, top) && Fits(u, b) && top <= u[tip].height < b.height
    ensures var r := ImportTip(u, t, b);
      && r.Imported? && Steady(u, r.table, b.height, b.hash)
      && (Good(u, t, lo, tip) && Descends(u, b.hash, tip) ==> Good(u, r.table, b.height, b.hash))
  {
    hide Relabel, MaxBranch, PruneTable, UniqueSlots, Contiguous, Grounded, MainIs, Bottomed;
    Queries(u, t, lo, tip);
    SoundIsStepped(u, t);
    var t1 := if b.hash in t then MarkTip(t, b.hash) else t[b.hash := Row(b, 0)];
    var t2 := PruneTable(t1, b.height - 1);
    if b.hash in t {
      ImportKnownGood(u, t, lo, tip, top, b);
      if Good(u, t, lo, tip) && Descends(u, b.hash, tip) { ImportKnownGrounded(u, t, lo, tip, b); }
    } else {
      ImportUnknownGood(u, t, lo, tip, top, b);
    }
    Queries(u, t2, b.height, b.hash);
  }

  /** The imported block is stored as it was handed in, unless it was stored before; no other
      block is new, and no block's data changes. */
  lemma ImportKeepsBlocks(u: Tree, t: Table, b: Block)
    requires Sound(u, t) && Fits(u, b) && ImportTip(u, t, b).Imported?
    ensures var t' := ImportTip(u, t, b).table;
      && b.hash in t' && (b.hash !in t ==> t'[b.hash].blk == b)
      && (forall x | x in t' && x != b.hash :: x in t)
      && (forall x | x in t' && x in t :: t'[x].blk == t[x].blk)
  {
    SoundIsStepped(u, t);
    hide TipHeight, LowestHeight, ForkWalk, MaxBranch;
    if b.hash in t {
      assert Fits(u, t[b.hash].blk);
      TipOnMain(u, t, b.hash);
    }
  }

  /** What an import above the tip deletes: the whole main chain if the block is unknown; and
      if it is stored, its own branch down to the main chain, and what the main chain has below
      that.  Other side branches, and the part of the main chain that is left, are kept. */
  lemma ImportDeletes(u: Tree, t: Table, lo: nat, tip: Hash, b: Block)
    requires Sound(u, t) && MainIs(u, t, lo, tip) && Stepped(t) && Fits(u, b) && u[tip].height < b.height
    requires ImportTip(u, t, b).Imported?
    ensures var t' := ImportTip(u, t, b).table; var w := ForkWalk(t, b.hash);
      if b.hash !in t then forall x :: x in t' <==> x == b.hash || OffMain(t, x)
      else
        && w != []
        && forall x :: x in t' <==>
             x in t && (x == b.hash || (x !in Hashes(w) && !(OnMain(t, x) && t[x].blk.height < w[|w| - 1].height)))
  {
    hide MaxBranch, LowestHeight, TipHeight, ForkWalk, MarkTip, PruneTable, MainIs;
    MainBelow(u, t, lo, tip, b.height);
    if b.hash in t {
      assert Fits(u, t[b.hash].blk) && OffMain(t, b.hash);
      MarkTipPruned(t, b.hash, b.height - 1);
      WalkBelow(u, t, b);
    } else {
      PruneDeletes(t[b.hash := Row(b, 0)], b.height - 1);
    }
  }

  lemma MainBelow(u: Tree, t: Table, lo: nat, tip: Hash, h: nat)
    requires Sound(u, t) && MainIs(u, t, lo, tip) && u[tip].height < h
    ensures h > 0 && forall x | OnMain(t, x) :: t[x].blk.height < h
  {
    forall x | OnMain(t, x) ensures t[x].blk.height < h {
      assert Between(u, x, lo, tip);
      assert Fits(u, t[x].blk);
    }
  }

  /** Marking a tip off the main chain, and then pruning. */
  lemma MarkTipPruned(t: Table, h: Hash, k: nat)
    requires Stepped(t) && OffMain(t, h)
    ensures var w := ForkWalk(t, h);
      forall x :: x in PruneTable(MarkTip(t, h), k) <==>
        x in t && !(t[x].blk.height <= k && (x in Hashes(w) || (OnMain(t, x) && t[x].blk.height < w[|w| - 1].height)))
  {
    hide MaxBranch, ForkWalk;
  }

  /** The blocks of a walk other than the first are lower. */
  lemma WalkBelow(u: Tree, t: Table, b: Block)
    requires Sound(u, t) && Stepped(t) && Fits(u, b) && OffMain(t, b.hash)
    ensures forall x | x in Hashes(ForkWalk(t, b.hash)) :: x in t && (x == b.hash || t[x].blk.height < b.height)
  {
    hide ForkWalk;
    WalkIsAncestry(u, t, b.hash);
    var w := ForkWalk(t, b.hash);
    forall x | x in Hashes(w) ensures x in t && (x == b.hash || t[x].blk.height < b.height) {
      var i :| 0 <= i < |w| && w[i].hash == x;
    }
  }

  /** A block that is marked as tip is on the main chain. */
  lemma TipOnMain(u: Tree, t: Table, h: Hash)
    requires Sound(u, t) && Stepped(t) && h in t
    ensures OnMain(MarkTip(t, h), h)
  {
    if OffMain(t, h) {
      WalkIsAncestry(u, t, h);
      assert ForkWalk(t, h)[0] in ForkWalk(t, h);
    }
  }

  lemma SingletonGood(u: Tree, b: Block)
    requires WellFormed(u) && Fits(u, b)
    ensures Good(u, map[b.hash := Row(b, 0)], b.height, b.hash)
  {
    assert Descends(u, b.hash, b.hash);
  }

  /** The very first import. */
  lemma FirstImportGood(u: Tree, b: Block)
    requires WellFormed(u) && Fits(u, b)
    ensures var r := ImportTip(u, map[], b);
      r.Imported? && r.table == map[b.hash := Row(b, 0)] && Good(u, r.table, b.height, b.hash)
  {
    hide UniqueSlots, Contiguous, MainIs, Grounded, MaxBranch, Bottomed;
    var t1: Table := map[b.hash := Row(b, 0)];
    assert b.height > 0 ==> PruneTable(t1, b.height - 1) == t1;
    SingletonGood(u, b);
    Queries(u, t1, b.height, b.hash);
    assert TipHeight(map[]) == -1;
    assert map[][b.hash := Row(b, 0)] == t1;
  }

  // ----- Reorgs as seen from the walks

  /** After a reorg the walk from the old tip lists exactly the displaced blocks,
      top-down, and setting the old tip again restores the old main chain. */
  lemma {:induction false} ReorgTheorem(u: Tree, t: Table, lo: nat, tip: Hash, b: Block)
    requires Steady(u, t, lo, tip) && Fits(u, b) && Descends(u, b.hash, Lowest(u, lo, tip))
    requires b.hash in t || b.parent in t
    ensures SetTip(u, t, b).Attached?
    ensures var t' := SetTip(u, t, b).table;
      && Steady(u, t', lo, b.hash) && Stepped(t')
      && t'.Keys == t.Keys + {b.hash}
      && (forall x :: x in Hashes(ForkWalk(t', tip)) <==> OnMain(t, x) && !OnMain(t', x))
      && (forall i | 0 <= i < |ForkWalk(t', tip)| :: ForkWalk(t', tip)[i].height == u[tip].height - i)
      && (var back := SetTip(u, t', t[tip].blk);
          && back.Attached? && back.oldTip == b.hash
          && forall x :: OnMain(back.table, x) <==> OnMain(t, x))
  {
    hide SetTip, UniqueSlots, Contiguous, Bottomed, ForkWalk;
    SetTipGood(u, t, lo, tip, b);
    SetTipKeepsBlocks(u, t, b);
    var t' := SetTip(u, t, b).table;
    SoundIsStepped(u, t');
    assert Fits(u, t[tip].blk);
    ReorgWalk(u, t, lo, tip, t', b.hash);
    if OffMain(t', tip) { WalkIsAncestry(u, t', tip); }
    SetTipGood(u, t', lo, b.hash, t[tip].blk);
    SameMain(u, t, SetTip(u, t', t[tip].blk).table, lo, tip);
  }

  lemma SameMain(u: Tree, t: Table, t': Table, lo: nat, tip: Hash)
    requires WellFormed(u) && MainIs(u, t, lo, tip) && MainIs(u, t', lo, tip)
    ensures forall x :: OnMain(t', x) <==> OnMain(t, x)
  {
  }

  lemma ReorgWalk(u: Tree, t: Table, lo: nat, tip: Hash, t': Table, tip': Hash)
    requires Steady(u, t, lo, tip) && Steady(u, t', lo, tip') && Stepped(t') && tip in t'
    requires Descends(u, tip', Lowest(u, lo, tip))
    ensures forall x :: x in Hashes(ForkWalk(t', tip)) <==> OnMain(t, x) && !OnMain(t', x)
    ensures OnMain(t', ForkEnd(t', tip)) && OnMain(t, ForkEnd(t', tip))
    ensures u[ForkEnd(t', tip)].height + |ForkWalk(t', tip)| == u[tip].height
  {
    hide UniqueSlots, Contiguous, Bottomed, ForkWalk;
    var e := ForkEnd(t', tip);
    ForkEndOnMain(u, t', lo, tip', tip);
    assert Between(u, e, lo, tip);
    forall x ensures x in Hashes(ForkWalk(t', tip)) <==> OnMain(t, x) && !OnMain(t', x) {
      WalkMembers(u, t', tip, x);
      assert OnMain(t, x) <==> Between(u, x, lo, tip);
      if OnMain(t, x) && u[x].height <= u[e].height {
        DescendsLinear(u, tip, e, x);
        assert Between(u, e, lo, tip');
        DescendsTrans(u, tip', e, x);
        assert Between(u, x, lo, tip');
      }
    }
  }

  /** Every walk ends on the main chain or at a missing block below L, so never above the
      tip. */
  lemma ForkEndLow(u: Tree, t: Table, lo: nat, tip: Hash, h: Hash)
    requires Steady(u, t, lo, tip) && Stepped(t) && h in t
    ensures var w := ForkWalk(t, h); var e := ForkEnd(t, h);
      && e in u && Descends(u, h, e) && u[e].height + |w| == u[h].height && u[e].height <= u[tip].height
      && (OnMain(t, e) || (e !in t && u[e].height < lo))
  {
    hide UniqueSlots, Contiguous;
    WalkEnd(u, t, h);
    var e := ForkEnd(t, h);
    if OnMain(t, e) { assert Between(u, e, lo, tip); }
  }

  /** If imports descend from the tip, those missing blocks are pruned main-chain blocks. */
  lemma ForkEndGrounded(u: Tree, t: Table, lo: nat, tip: Hash, h: Hash)
    requires Good(u, t, lo, tip) && Stepped(t) && h in t
    ensures var e := ForkEnd(t, h);
      && Descends(u, tip, e) && Descends(u, h, e)
      && (OnMain(t, e) || (e !in t && u[e].height < lo))
      && u[e].height + |ForkWalk(t, h)| == u[h].height
  {
    hide UniqueSlots, Contiguous, Bottomed;
    WalkEnd(u, t, h);
    var e := ForkEnd(t, h);
    if OnMain(t, e) { assert Between(u, e, lo, tip); }
  }

  /** Tables that agree on their side branches have the same walks from there. */
  lemma {:induction false} SameWalk(t: Table, t': Table, h: Hash)
    requires Stepped(t) && Stepped(t')
    requires forall x :: OffMain(t, x) <==> OffMain(t', x)
    requires forall x | OffMain(t, x) :: x in t' && t[x] == t'[x]
    ensures ForkWalk(t', h) == ForkWalk(t, h)
    decreases if h in t then t[h].blk.height + 1 else 0
  {
    if OffMain(t, h) {
      assert StepsDown(t, h) && OffMain(t', h);
      SameWalk(t, t', t[h].blk.parent);
    }
  }

  /** Pruning changes no fork walk. */
  lemma PruneKeepsWalks(u: Tree, t: Table, k: nat, h: Hash)
    requires Sound(u, t)
    ensures Stepped(t) && Stepped(PruneTable(t, k))
    ensures ForkWalk(PruneTable(t, k), h) == ForkWalk(t, h)
  {
    SoundIsStepped(u, t);
    SoundIsStepped(u, PruneTable(t, k));
    SameWalk(t, PruneTable(t, k), h);
  }

  /** Importing an unknown block changes no fork walk either. */
  lemma ImportKeepsWalks(u: Tree, t: Table, b: Block, h: Hash)
    requires Sound(u, t) && Fits(u, b) && b.hash !in t && ImportTip(u, t, b).Imported?
    ensures var t' := ImportTip(u, t, b).table;
      Stepped(t) && Stepped(t') && ForkWalk(t', h) == ForkWalk(t, h)
  {
    var t' := ImportTip(u, t, b).table;
    SoundIsStepped(u, t);
    SoundIsStepped(u, t');
    SameWalk(t, t', h);
  }
}
