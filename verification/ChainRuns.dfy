/** Whole runs of chainstate operations, and the chainstate's own sanity check. */
module ChainRuns {
  import opened BlockTree
  import opened ChainTable
  import opened Reorg

  datatype Op = OpSetTip(b: Block) | OpImport(b: Block) | OpPrune(k: nat)

  ghost predicate Authentic(u: Tree, op: Op) { op.OpPrune? || Fits(u, op.b) }

  /** One operation; None stands for a failed CHECK. */
  ghost function Apply(u: Tree, t: Table, op: Op): (r: Option<Table>)
    requires Sound(u, t) && Authentic(u, op)
    ensures r.Some? ==> Sound(u, r.value)
  {
    match op
    case OpSetTip(b) =>
      (match SetTip(u, t, b)
       case Rejected => Some(t)
       case Attached(t', _) => Some(t')
       case Aborted => None)
    case OpImport(b) =>
      (match ImportTip(u, t, b)
       case Imported(t') => Some(t')
       case ImportAborted => None)
    case OpPrune(k) => Some(PruneTable(t, k))
  }

  /** The invariant; with grounded set, missing parents are also pruned main-chain blocks. */
  ghost predicate Inv(u: Tree, t: Table, grounded: bool) {
    WellFormed(u) &&
    (t == map[] || exists lo, tip :: Steady(u, t, lo, tip) && (grounded ==> Good(u, t, lo, tip)))
  }

  /** What the chainstate asks of its callers: new tips descend from the lowest
      unpruned block, imported blocks are above the tip (and descend from it, for the
      stronger invariant), and pruning stays below the tip. */
  ghost predicate Premise(u: Tree, t: Table, op: Op, grounded: bool) {
    Authentic(u, op) &&
    forall lo, tip | Steady(u, t, lo, tip) ::
      match op
      case OpSetTip(b) => Descends(u, b.hash, Lowest(u, lo, tip))
      case OpImport(b) => u[tip].height < b.height && (grounded ==> Descends(u, b.hash, tip))
      case OpPrune(k) => k < u[tip].height
  }

  ghost function Run(u: Tree, t: Table, ops: seq<Op>): Option<Table>
    requires Sound(u, t) && forall op | op in ops :: Authentic(u, op)
    decreases |ops|
  {
    if ops == [] then Some(t)
    else
      var r := Apply(u, t, ops[0]);
      if r.None? then None else Run(u, r.value, ops[1..])
  }

  ghost predicate Premises(u: Tree, t: Table, ops: seq<Op>, grounded: bool)
    requires Sound(u, t) && forall op | op in ops :: Authentic(u, op)
    decreases |ops|
  {
    ops == [] ||
    (Premise(u, t, ops[0], grounded) &&
     var r := Apply(u, t, ops[0]);
     r.Some? ==> Premises(u, r.value, ops[1..], grounded))
  }

  lemma ApplyInv(u: Tree, t: Table, op: Op, grounded: bool)
    requires Inv(u, t, grounded) && Sound(u, t) && Premise(u, t, op, grounded)
    ensures Apply(u, t, op).Some? && Inv(u, Apply(u, t, op).value, grounded)
  {
    hide UniqueSlots, Contiguous, MainIs, Grounded, Bottomed, SetTip, ImportTip;
    if t == map[] {
      ApplyEmpty(u, op, grounded);
    } else {
      var lo, tip :| Steady(u, t, lo, tip) && (grounded ==> Good(u, t, lo, tip));
      match op
      case OpSetTip(b) => SetTipGood(u, t, lo, tip, b);
      case OpImport(b) => LowBelowTip(u, t, lo, tip); ImportGood(u, t, lo, tip, lo, b);
      case OpPrune(k) => PruneGood(u, t, lo, tip, k);
    }
  }

  lemma LowBelowTip(u: Tree, t: Table, lo: nat, tip: Hash)
    requires WellFormed(u) && MainIs(u, t, lo, tip)
    ensures tip in u && lo <= u[tip].height
  {
  }

  lemma ApplyEmpty(u: Tree, op: Op, grounded: bool)
    requires WellFormed(u) && Authentic(u, op)
    ensures Apply(u, map[], op).Some? && Inv(u, Apply(u, map[], op).value, grounded)
  {
    match op
    case OpSetTip(b) => assert TipOf(map[]).None?;
    case OpImport(b) => FirstImportGood(u, b);
    case OpPrune(k) =>
  }

  /** No run of SetTip, ImportTip and Prune that meets the premises ever aborts,
      and the invariant holds after each. */
  lemma {:induction false} RunInvariant(u: Tree, t: Table, ops: seq<Op>, grounded: bool)
    requires Inv(u, t, grounded) && Sound(u, t) && (forall op | op in ops :: Authentic(u, op))
    requires Premises(u, t, ops, grounded)
    ensures Run(u, t, ops).Some? && Inv(u, Run(u, t, ops).value, grounded)
    decreases |ops|
  {
    hide Inv, Sound, Premise, Apply;
    if ops != [] {
      ApplyInv(u, t, ops[0], grounded);
      RunInvariant(u, Apply(u, t, ops[0]).value, ops[1..], grounded);
    }
  }

  // ----- SanityCheck

  /** Block h is the lowest of its branch. */
  ghost predicate Bottom(t: Table, h: Hash) {
    OffMain(t, h) && forall g :: !Below(t, g, h)
  }

  /** What SanityCheck verifies of one stored side-branch block. */
  ghost predicate SaneRow(t: Table, h: Hash)
    requires OffMain(t, h)
  {
    var p := t[h].blk.parent;
    if !Bottom(t, h) then ParentOnBranch(t, h) && t[p].blk.height + 1 == t[h].blk.height
    else if p !in t then t[h].blk.height <= LowestHeight(t)
    else t[p].branch != t[h].branch && t[p].blk.height + 1 == t[h].blk.height
  }

  ghost predicate Sane(t: Table) {
    t == map[] ||
    ((exists m :: OnMain(t, m)) && forall h {:trigger OffMain(t, h)} | OffMain(t, h) :: SaneRow(t, h))
  }

  /** In any table of authentic blocks in unique slots, the sanity check passes exactly if there
      is a main chain, side branches are linked without gaps, and those that end at a missing
      block start at or below the lowest main-chain block; or if the table is empty. */
  lemma SaneMeans(u: Tree, t: Table)
    requires Sound(u, t) && UniqueSlots(t)
    ensures Sane(t) <==>
      || t == map[]
      || (&& (exists m :: m in t && t[m].branch == 0)
          && Contiguous(t)
          && forall h | OffMain(t, h) && t[h].blk.parent !in t :: t[h].blk.height <= LowestHeight(t))
  {
    hide UniqueSlots, LowestHeight;
    forall h | OffMain(t, h) && t[h].blk.parent in t
      ensures t[t[h].blk.parent].blk.height + 1 == t[h].blk.height
      ensures t[t[h].blk.parent].branch == t[h].branch ==> Below(t, t[h].blk.parent, h)
    {
      assert Fits(u, t[h].blk) && Rooted(u, h) && Fits(u, t[t[h].blk.parent].blk);
    }
    assert (exists m :: OnMain(t, m)) <==> (exists m :: m in t && t[m].branch == 0) by {
      if m :| m in t && t[m].branch == 0 { assert OnMain(t, m); }
      if m :| OnMain(t, m) { assert m in t && t[m].branch == 0; }
    }
    if Sane(t) && t != map[] {
      forall g, h | Below(t, g, h) ensures ParentOnBranch(t, h) {
        assert OffMain(t, h) && !Bottom(t, h) && SaneRow(t, h);
      }
    }
    if Contiguous(t) {
      forall h | OffMain(t, h) ensures SaneRow(t, h) <==> (t[h].blk.parent in t || t[h].blk.height <= LowestHeight(t)) {
        if !Bottom(t, h) {
          var g :| Below(t, g, h);
          assert ParentOnBranch(t, h);
        }
      }
    }
  }

  /** Where branch numbers agree with the tree, the sanity check passes exactly if no side
      branch with a missing parent starts above L. */
  lemma SaneIff(u: Tree, t: Table, lo: nat, tip: Hash, top: nat)
    requires Chained(u, t, lo, tip, top)
    ensures Sane(t) <==> Bottomed(t, lo)
  {
    hide UniqueSlots;
    Queries(u, t, lo, tip);
    hide LowestHeight;
    forall h | OffMain(t, h) ensures SaneRow(t, h) <==> (t[h].blk.parent in t || t[h].blk.height <= lo) {
      assert Fits(u, t[h].blk) && Rooted(u, h);
      var p := t[h].blk.parent;
      if p in t { assert Fits(u, t[p].blk) && (t[p].branch == t[h].branch ==> Below(t, p, h)); }
      if !Bottom(t, h) {
        var g :| Below(t, g, h);
        assert ParentOnBranch(t, h);
      }
    }
    assert OnMain(t, tip);
  }
}
