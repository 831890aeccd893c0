/** Runs with sanity checks, against a base chain of which nothing is assumed: the process
    aborts at the first fatal range, and until then the invariant holds. */
module CheckedRuns {
  import opened BlockTree
  import opened ChainTable
  import opened Reorg
  import opened Notify
  import opened SyncSpec
  import opened SyncSafety
  import opened SyncRuns
  import opened DeepReorg

  /** The state after a range without main[L] was attached, notified and checked. */
  lemma DeepExtend(u: Tree, cfg: Config, origin: Option<Hash>, s: State, lo: nat, tip: Hash, c: seq<Block>, start: nat,
                   bs: seq<Block>, num: nat) returns (lo': nat)
    requires SyncInv(u, cfg, origin, s) && Placed(u, origin, s, lo, tip) && Stepped(s.t) && cfg.sanity
    requires Slice(u, c, start, bs) && lo <= start && c[lo].hash != Lowest(u, lo, tip)
    requires (bs[0].hash in s.t || bs[0].parent in s.t)
    requires AttachBlocks(u, s.t, bs).AttachedBlocks?
    ensures var a := AttachBlocks(u, s.t, bs);
      var e := Extend(u, cfg, s, a.t, tip, bs, num, c);
      && a.oldTip == tip
      && (!e.StepAborted? ==>
            e.Done? && e.s.next == -1 && SyncInv(u, cfg, origin, e.s) && Placed(u, origin, e.s, lo', Last(bs).hash))
  {
    hide UniqueSlots, Contiguous, Bottomed, Grounded, MainIs, AttachBlocks, TipUpdatedFrom, Fatal, AttachList, Grown,
      ForkWalk, Pruned, Follows, NewBottom, LoAfter;
    AttachSwaps(u, s.t, lo, tip, c, start, bs);
    var a := AttachBlocks(u, s.t, bs);
    OldTip(u, s.t, lo, tip, c, start, bs, a.t);
    DeepCallback(u, cfg, s.t, lo, tip, c, start, bs, a.t, false);
    var e := Extend(u, cfg, s, a.t, tip, bs, num, c);
    lo' := 0;
    if !e.StepAborted? {
      var low := NewBottom(s.t, c, start);
      var tip' := Last(bs).hash;
      assert Fits(u, Last(bs));
      PrunedGood(u, cfg, a.t, low, tip');
      lo' := LoAfter(cfg, low, u[tip'].height);
      var cb := TipUpdatedFrom(u, cfg, a.t, tip, AttachList(u, s.t, bs), c);
      FollowsMore(origin, s.imports, s.sent, tip, cb.msgs, tip');
      assert Placed(u, origin, e.s, lo', tip');
    }
  }

  lemma DeepKeeps(u: Tree, cfg: Config, origin: Option<Hash>, s: State, lo: nat, tip: Hash, c: seq<Block>, start: nat,
                  bs: seq<Block>, num: nat, g: nat, c2: Reply, f: Faults)
    requires SyncInv(u, cfg, origin, s) && Placed(u, origin, s, lo, tip) && Stepped(s.t) && cfg.sanity && !f.attach
    requires Slice(u, c, start, bs) && lo <= start && c[lo].hash != Lowest(u, lo, tip) && Authenticated(u, c2)
    requires (bs[0].hash in s.t || bs[0].parent in s.t)
    requires AttachBlocks(u, s.t, bs).AttachedBlocks?
    ensures var a := AttachBlocks(u, s.t, bs);
      var r := Advance(u, cfg, s, a.t, a.oldTip, bs, num, c, g, c2, f);
      !r.StepAborted? ==> SyncInv(u, cfg, origin, r.s)
  {
    hide UniqueSlots, Contiguous, Bottomed, Grounded, MainIs, AttachBlocks, Extend, Continue, SyncInv, Follows;
    var lo' := DeepExtend(u, cfg, origin, s, lo, tip, c, start, bs, num);
    var e := Extend(u, cfg, s, AttachBlocks(u, s.t, bs).t, tip, bs, num, c);
    if e.Done? && e.more {
      var k := start + |bs| - 1;
      assert Last(bs) == c[k] && c[k].height == k;
      var lo1, tip1 := ContinueInv(u, cfg, origin, e.s, lo', c, k, g, c2, f.jump);
    }
  }

  /** With the sanity check in place, every step that does not abort keeps the invariant, for
      all answers of the base chain. */
  lemma {:induction false} StepKeeps(u: Tree, cfg: Config, origin: Option<Hash>, s: State, c0: Reply, c1: Reply,
                                     c2: Reply, f: Faults)
    requires SyncInv(u, cfg, origin, s) && Sound(u, s.t) && cfg.sanity && !f.attach
    requires Authenticated(u, c0) && Authenticated(u, c1) && Authenticated(u, c2)
    ensures var r := UpdateStep(u, cfg, s, c0, c1, c2, f); !r.StepAborted? ==> SyncInv(u, cfg, origin, r.s)
  {
    hide UniqueSlots, Contiguous, Bottomed, UpdateStep, Follows, IsChain;
    if c0.None? || c1.None? {
      StepSafe(u, cfg, origin, s, c0, None, c2, f);
      ThrowsAnyway(u, cfg, s, c0, c1, c2, f);
    } else if s.t == map[] {
      EmptyStep(u, cfg, origin, s, c0.value, c1, c2, f);
    } else {
      var lo, tip :| Placed(u, origin, s, lo, tip);
      if Contains(u, c1.value, lo, tip) {
        var lo', tip' := RunningStep(u, cfg, origin, s, lo, tip, c0.value, c1.value, c2, f);
      } else {
        OtherChainKeeps(u, cfg, origin, s, lo, tip, c0.value, c1.value, c2, f);
      }
    }
  }

  /** Without a tip height, the range is not asked for. */
  lemma ThrowsAnyway(u: Tree, cfg: Config, s: State, c0: Reply, c1: Reply, c2: Reply, f: Faults)
    requires Sound(u, s.t) && (c0.None? || c1.None?)
    requires Authenticated(u, c0) && Authenticated(u, c1) && Authenticated(u, c2)
    ensures UpdateStep(u, cfg, s, c0, c1, c2, f) == UpdateStep(u, cfg, s, c0, None, c2, f)
  {
    hide AttachBlocks, Advance, SearchBack, ImportNewTip;
  }

  lemma OtherChainKeeps(u: Tree, cfg: Config, origin: Option<Hash>, s: State, lo: nat, tip: Hash,
                        c0: seq<Block>, c1: seq<Block>, c2: Reply, f: Faults)
    requires SyncInv(u, cfg, origin, s) && Placed(u, origin, s, lo, tip) && cfg.sanity && !f.attach
    requires IsChain(u, c0) && IsChain(u, c1) && Authenticated(u, c2) && !Contains(u, c1, lo, tip)
    ensures var r := UpdateStep(u, cfg, s, Some(c0), Some(c1), c2, f);
      !r.StepAborted? ==> SyncInv(u, cfg, origin, r.s)
  {
    hide UniqueSlots, Contiguous, Bottomed, MainIs, UpdateStep, AttachBlocks, Advance, Follows, LowestHeight, Range,
      SyncInv;
    TipStored(u, s.t, lo, tip);
    Queries(u, s.t, lo, tip);
    SoundIsStepped(u, s.t);
    StepValue(u, cfg, s, lo, tip, c0, c1, c2, f);
    var start := StartHeight(u, s, tip);
    var num := Max(s.numBlocks, 3);
    var bs := Range(c1, start, num);
    RangeSlice(u, c1, start, num);
    if bs == [] { NothingFits(u, s.t); } else { AttachBlocksAny(u, s.t, lo, tip, c1, start, bs); }
    if AttachBlocks(u, s.t, bs).NoFit? {
      if start > lo { SearchInv(u, cfg, origin, s, lo, tip, start, num); }
    } else {
      DeepKeeps(u, cfg, origin, s, lo, tip, c1, start, bs, num, GenesisHeight(cfg, c0), c2, f);
    }
  }

  // ----- Runs

  /** The range of this step is fatal. */
  ghost predicate FatalStep(u: Tree, cfg: Config, s: State, a: Answers) {
    a.tip.Some? && a.range.Some? &&
    exists lo, tip :: FatalFor(u, cfg, s, a, lo, tip)
  }

  ghost predicate FatalFor(u: Tree, cfg: Config, s: State, a: Answers, lo: nat, tip: Hash)
    requires a.range.Some?
  {
    && Steady(u, s.t, lo, tip) && Stepped(s.t) && StartHeight(u, s, tip) >= 0
    && Fatal(u, cfg.sanity && !a.faults.attach, s.t, lo, tip, a.range.value, StartHeight(u, s, tip))
  }

  lemma FatalStepIff(u: Tree, cfg: Config, origin: Option<Hash>, s: State, a: Answers)
    requires SyncInv(u, cfg, origin, s) && Sound(u, s.t) && AnswersAuthentic(u, a)
    ensures StepWith(u, cfg, s, a).StepAborted? <==> FatalStep(u, cfg, s, a)
  {
    hide UniqueSlots, Contiguous, Bottomed, UpdateStep, Follows, IsChain, Fatal;
    if a.tip.None? || a.range.None? {
      StepSafe(u, cfg, origin, s, a.tip, None, a.block, a.faults);
      ThrowsAnyway(u, cfg, s, a.tip, a.range, a.block, a.faults);
    } else if s.t == map[] {
      EmptyStep(u, cfg, origin, s, a.tip.value, a.range, a.block, a.faults);
    } else {
      var lo, tip :| Placed(u, origin, s, lo, tip);
      SoundIsStepped(u, s.t);
      AbortsIff(u, cfg, origin, s, lo, tip, a.tip.value, a.range.value, a.block, a.faults);
      assert FatalFor(u, cfg, s, a, lo, tip) <==> StepWith(u, cfg, s, a).StepAborted?;
      if lo1: nat, tip1: Hash :| FatalFor(u, cfg, s, a, lo1, tip1) { MainUnique(u, s.t, lo, tip, lo1, tip1); }
    }
  }

  /** All steps before number i go well, and then the range is fatal. */
  ghost predicate FatalAt(u: Tree, cfg: Config, s: State, inputs: seq<Answers>, i: nat)
    requires Sound(u, s.t) && forall a | a in inputs :: AnswersAuthentic(u, a)
  {
    && i < |inputs|
    && var r := RunSteps(u, cfg, s, inputs[..i]); r.Some? && FatalStep(u, cfg, r.value, inputs[i])
  }

  /** A run with sanity checks aborts exactly at its first fatal range, if there is one, and
      otherwise keeps the invariant. */
  lemma {:induction false} RunKeeps(u: Tree, cfg: Config, origin: Option<Hash>, s: State, inputs: seq<Answers>)
    requires SyncInv(u, cfg, origin, s) && Sound(u, s.t) && (forall a | a in inputs :: AnswersAuthentic(u, a))
    requires cfg.sanity && forall a | a in inputs :: !a.faults.attach
    ensures RunSteps(u, cfg, s, inputs).None? <==> exists i :: FatalAt(u, cfg, s, inputs, i)
    ensures RunSteps(u, cfg, s, inputs).Some? ==> SyncInv(u, cfg, origin, RunSteps(u, cfg, s, inputs).value)
    decreases |inputs|
  {
    hide SyncInv, UpdateStep, Sound, FatalStep, AnswersAuthentic;
    if inputs != [] {
      var a := inputs[0];
      assert AnswersAuthentic(u, a);
      StepKeepsWith(u, cfg, origin, s, a);
      FatalStepIff(u, cfg, origin, s, a);
      assert inputs[..0] == [];
      assert FatalAt(u, cfg, s, inputs, 0) <==> FatalStep(u, cfg, s, a);
      var r := StepWith(u, cfg, s, a);
      if !r.StepAborted? {
        RunKeeps(u, cfg, origin, r.s, inputs[1..]);
        forall i: nat | 0 < i < |inputs|
          ensures FatalAt(u, cfg, s, inputs, i) <==> FatalAt(u, cfg, r.s, inputs[1..], i - 1)
        {
          assert inputs[..i][1..] == inputs[1..][..i - 1] && inputs[..i][0] == a;
        }
        if i: nat :| FatalAt(u, cfg, r.s, inputs[1..], i) { assert FatalAt(u, cfg, s, inputs, i + 1); }
      }
    }
  }

  lemma StepKeepsWith(u: Tree, cfg: Config, origin: Option<Hash>, s: State, a: Answers)
    requires SyncInv(u, cfg, origin, s) && Sound(u, s.t) && cfg.sanity && !a.faults.attach && AnswersAuthentic(u, a)
    ensures var r := StepWith(u, cfg, s, a); !r.StepAborted? ==> SyncInv(u, cfg, origin, r.s)
  {
    hide UpdateStep, SyncInv, Sound;
    StepKeeps(u, cfg, origin, s, a.tip, a.range, a.block, a.faults);
  }
}
