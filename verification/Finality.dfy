/** Base chains without deep reorgs: what is buried by the configured depth never changes.
    Then every range contains main[L], and the stronger invariant holds, by which the
    missing parents of side branches are pruned main-chain blocks. */
module Finality {
  import opened BlockTree
  import opened ChainTable
  import opened Reorg
  import opened SyncSpec
  import opened SyncSafety
  import opened SyncRuns

  // ----- What is assumed of the base chain

  /** The part of a snapshot that is buried deep enough to be final. */
  function Settled(depth: nat, c: seq<Block>): seq<Block>
    requires c != []
  {
    c[..Max(1, |c| - depth)]
  }

  /** The settled prefix after one more answer. */
  function After(depth: nat, p: seq<Block>, c: Reply): seq<Block> {
    if c.None? || c.value == [] || |Settled(depth, c.value)| <= |p| then p else Settled(depth, c.value)
  }

  /** The answer is authentic and keeps all that was settled before. */
  ghost predicate Keeps(u: Tree, p: seq<Block>, c: Reply) {
    c.Some? ==> IsChain(u, c.value) && p <= c.value
  }

  lemma AfterGrows(depth: nat, p: seq<Block>, c: Reply)
    requires c.Some? ==> c.value != [] && p <= c.value
    ensures p <= After(depth, p, c)
    ensures c.Some? ==> After(depth, p, c) <= c.value && |Settled(depth, c.value)| <= |After(depth, p, c)|
  {
  }

  lemma SettledContains(u: Tree, cfg: Config, p: seq<Block>, lo: nat, lo': nat, c: seq<Block>, k: nat)
    requires WellFormed(u) && IsChain(u, c) && p <= c && lo < |p| && lo <= k < |c|
    requires lo' == lo || lo' == LoAfter(cfg, lo, k)
    ensures lo' <= k && c[k].hash in u && u[c[k].hash].height == k
    ensures Contains(u, After(cfg.depth, p, Some(c)), lo', c[k].hash)
  {
    AfterGrows(cfg.depth, p, Some(c));
    ChainAncestor(u, c, k, lo');
    assert Fits(u, c[k]) && Fits(u, c[lo']);
  }

  /** The settled prefix after all three answers of a step. */
  function After3(depth: nat, p: seq<Block>, c0: Reply, c1: Reply, c2: Reply): seq<Block> {
    After(depth, After(depth, After(depth, p, c0), c1), c2)
  }

  /** Each answer of a step keeps what was settled before it. */
  ghost predicate Keeps3(u: Tree, depth: nat, p: seq<Block>, c0: Reply, c1: Reply, c2: Reply) {
    && Keeps(u, p, c0)
    && Keeps(u, After(depth, p, c0), c1)
    && Keeps(u, After(depth, After(depth, p, c0), c1), c2)
  }

  lemma GrowStep(u: Tree, depth: nat, p: seq<Block>, c0: Reply, c1: Reply, c2: Reply)
    requires Keeps3(u, depth, p, c0, c1, c2)
    ensures var p0 := After(depth, p, c0);
      var p1 := After(depth, p0, c1);
      p <= p0 <= p1 <= After3(depth, p, c0, c1, c2)
  {
  }

  /** The block that a step may import is settled. */
  lemma GenesisSettled(u: Tree, cfg: Config, p: seq<Block>, c0: seq<Block>)
    requires Keeps(u, p, Some(c0))
    ensures GenesisHeight(cfg, c0) < |After(cfg.depth, p, Some(c0))|
  {
  }

  // ----- One step

  /** The stronger invariant, when the blocks p of the base chain are settled. */
  ghost predicate FullInv(u: Tree, cfg: Config, origin: Option<Hash>, s: State, p: seq<Block>) {
    && SyncInv(u, cfg, origin, s)
    && (s.t == map[] || exists lo, tip :: Good(u, s.t, lo, tip) && Contains(u, p, lo, tip))
  }

  lemma FullGrow(u: Tree, cfg: Config, origin: Option<Hash>, s: State, p: seq<Block>, p': seq<Block>)
    requires FullInv(u, cfg, origin, s, p) && p <= p'
    ensures FullInv(u, cfg, origin, s, p')
  {
    hide SyncInv, Grounded;
    if s.t != map[] {
      var lo, tip :| Good(u, s.t, lo, tip) && Contains(u, p, lo, tip);
      assert Contains(u, p', lo, tip);
    }
  }

  /** Both parts of the invariant speak of the same main chain. */
  lemma FullPlaced(u: Tree, cfg: Config, origin: Option<Hash>, s: State, p: seq<Block>) returns (lo: nat, tip: Hash)
    requires FullInv(u, cfg, origin, s, p) && s.t != map[]
    ensures Placed(u, origin, s, lo, tip) && Good(u, s.t, lo, tip) && Contains(u, p, lo, tip)
  {
    hide UniqueSlots, Contiguous, Bottomed, Grounded, Follows;
    lo, tip :| Placed(u, origin, s, lo, tip);
    var lo1, tip1 :| Good(u, s.t, lo1, tip1) && Contains(u, p, lo1, tip1);
    MainUnique(u, s.t, lo, tip, lo1, tip1);
  }

  lemma PrefixHolds(u: Tree, t: Table, lo: nat, tip: Hash, p: seq<Block>, c: seq<Block>)
    requires Steady(u, t, lo, tip) && Contains(u, p, lo, tip) && p <= c && IsChain(u, c)
    ensures Contains(u, c, lo, tip) && Holds(u, t, Some(c))
  {
    hide UniqueSlots, Contiguous, Bottomed;
    forall lo1, tip1 | Steady(u, t, lo1, tip1) ensures Contains(u, c, lo1, tip1) {
      MainUnique(u, t, lo, tip, lo1, tip1);
    }
  }

  /** Where a step leads is settled again. */
  lemma MovedSettled(u: Tree, cfg: Config, t: Table, lo: nat, tip: Hash, p: seq<Block>, c0: seq<Block>, c1: seq<Block>,
                     c2: Reply, t': Table, lo': nat, tip': Hash)
    requires Good(u, t, lo, tip) && Contains(u, p, lo, tip) && Keeps3(u, cfg.depth, p, Some(c0), Some(c1), c2)
    requires Moved(u, cfg, t, lo, tip, c1, GenesisHeight(cfg, c0), c2, t', lo', tip')
    ensures Good(u, t', lo', tip') && Contains(u, After3(cfg.depth, p, Some(c0), Some(c1), c2), lo', tip')
  {
    hide UniqueSlots, Contiguous, Bottomed, Grounded, MainIs, Settled;
    GrowStep(u, cfg.depth, p, Some(c0), Some(c1), c2);
    var g := GenesisHeight(cfg, c0);
    var p0 := After(cfg.depth, p, Some(c0));
    GenesisSettled(u, cfg, p, c0);
    AfterGrows(cfg.depth, p0, Some(c1));
    if k: nat, t1: Table, lo1: nat :|
      Extended(u, cfg, t, lo, tip, c1, k, t1, lo1) && Jumped(u, t1, lo1, c1, k, g, c2, t', lo', tip')
    {
      AfterGrows(cfg.depth, After(cfg.depth, p0, Some(c1)), c2);
      assert c2.value[k] == p0[k] == c1[k];
      assert Fits(u, c2.value[g]);
    } else if k: nat :| ExtendedTo(u, cfg, t, lo, tip, c1, k, t', lo', tip') {
      SettledContains(u, cfg, p0, lo, lo', c1, k);
    }
  }

  /** Every step against answers that keep what is settled is safe, and keeps the stronger
      invariant. */
  lemma StepSettled(u: Tree, cfg: Config, origin: Option<Hash>, s: State, p: seq<Block>, c0: Reply, c1: Reply,
                    c2: Reply, f: Faults)
    requires FullInv(u, cfg, origin, s, p) && Keeps3(u, cfg.depth, p, c0, c1, c2) && Sound(u, s.t)
    ensures Holds(u, s.t, c1)
    ensures var r := UpdateStep(u, cfg, s, c0, c1, c2, f);
      !r.StepAborted? && FullInv(u, cfg, origin, r.s, After3(cfg.depth, p, c0, c1, c2))
  {
    hide UniqueSlots, Contiguous, Grounded, Bottomed, MainIs, UpdateStep, Follows, Settled, Moved;
    GrowStep(u, cfg.depth, p, c0, c1, c2);
    var p2 := After3(cfg.depth, p, c0, c1, c2);
    if s.t == map[] {
      EmptySettled(u, cfg, origin, s, p, c0, c1, c2, f);
    } else {
      var lo, tip := FullPlaced(u, cfg, origin, s, p);
      if c1.Some? { PrefixHolds(u, s.t, lo, tip, p, c1.value); }
      if c0.Some? && c1.Some? {
        var lo', tip' := RunningStep(u, cfg, origin, s, lo, tip, c0.value, c1.value, c2, f);
        var t' := UpdateStep(u, cfg, s, c0, c1, c2, f).s.t;
        MovedSettled(u, cfg, s.t, lo, tip, p, c0.value, c1.value, c2, t', lo', tip');
      } else {
        StepThrows(u, cfg, s, lo, tip, c0, c1, c2, f);
        FullGrow(u, cfg, origin, s, p, p2);
      }
    }
  }

  lemma StepThrows(u: Tree, cfg: Config, s: State, lo: nat, tip: Hash, c0: Reply, c1: Reply, c2: Reply, f: Faults)
    requires Sound(u, s.t) && MainIs(u, s.t, lo, tip) && s.next >= -1 && (c0.None? || c1.None?)
    requires Authenticated(u, c0) && Authenticated(u, c1) && Authenticated(u, c2)
    ensures UpdateStep(u, cfg, s, c0, c1, c2, f) == Threw(s)
  {
    hide MainIs;
    Queries(u, s.t, lo, tip);
  }

  lemma EmptySettled(u: Tree, cfg: Config, origin: Option<Hash>, s: State, p: seq<Block>, c0: Reply, c1: Reply,
                     c2: Reply, f: Faults)
    requires FullInv(u, cfg, origin, s, p) && Keeps3(u, cfg.depth, p, c0, c1, c2) && s.t == map[]
    ensures Holds(u, s.t, c1)
    ensures var r := UpdateStep(u, cfg, s, c0, c1, c2, f);
      !r.StepAborted? && FullInv(u, cfg, origin, r.s, After3(cfg.depth, p, c0, c1, c2))
  {
    hide UniqueSlots, Contiguous, Grounded, Bottomed, Follows, Settled;
    var p2 := After3(cfg.depth, p, c0, c1, c2);
    GrowStep(u, cfg.depth, p, c0, c1, c2);
    NoMain(u, c1);
    if c0.Some? {
      hide UpdateStep;
      EmptyStep(u, cfg, origin, s, c0.value, c1, c2, f);
      GenesisSettled(u, cfg, p, c0.value);
      AfterGrows(cfg.depth, After(cfg.depth, After(cfg.depth, p, c0), c1), c2);
      if c2.Some? && GenesisHeight(cfg, c0.value) < |c2.value| {
        var g := GenesisHeight(cfg, c0.value);
        assert Fits(u, c2.value[g]) && p2[g] == c2.value[g];
      }
    }
  }

  lemma NoMain(u: Tree, c: Reply)
    requires Keeps(u, [], c)
    ensures Holds(u, map[], c)
  {
  }

  // ----- Runs

  function Listed(c: Reply): seq<seq<Block>> { if c.Some? then [c.value] else [] }

  /** All snapshots that are seen during a run, in order. */
  function Snapshots(inputs: seq<Answers>): seq<seq<Block>> {
    if inputs == [] then []
    else Listed(inputs[0].tip) + Listed(inputs[0].range) + Listed(inputs[0].block) + Snapshots(inputs[1..])
  }

  /** No reorg reaches below the configured depth: what one snapshot has settled,
      every later one still has. */
  ghost predicate Final(depth: nat, cs: seq<seq<Block>>) {
    && (forall i | 0 <= i < |cs| :: cs[i] != [])
    && (forall i, j | 0 <= i < j < |cs| :: Settled(depth, cs[i]) <= cs[j])
  }

  /** Every snapshot still to come has the blocks p. */
  ghost predicate AllKeep(u: Tree, depth: nat, p: seq<Block>, cs: seq<seq<Block>>) {
    && Final(depth, cs)
    && (forall i | 0 <= i < |cs| :: IsChain(u, cs[i]) && p <= cs[i])
  }

  lemma FinalTail(depth: nat, c: seq<Block>, cs: seq<seq<Block>>)
    requires Final(depth, [c] + cs)
    ensures Final(depth, cs) && c != [] && forall i | 0 <= i < |cs| :: Settled(depth, c) <= cs[i]
  {
    hide Settled;
    var all := [c] + cs;
    assert all[0] == c;
    forall i | 0 <= i < |cs| ensures cs[i] != [] && Settled(depth, c) <= cs[i] {
      assert Settled(depth, all[0]) <= all[i + 1];
    }
    forall i, j | 0 <= i < j < |cs| ensures Settled(depth, cs[i]) <= cs[j] {
      assert Settled(depth, all[i + 1]) <= all[j + 1];
    }
  }

  lemma KeepOne(u: Tree, depth: nat, p: seq<Block>, c: Reply, cs: seq<seq<Block>>)
    requires AllKeep(u, depth, p, Listed(c) + cs)
    ensures Keeps(u, p, c) && AllKeep(u, depth, After(depth, p, c), cs)
  {
    hide IsChain, Settled, Final;
    if c.None? {
      assert Listed(c) + cs == cs;
    } else {
      FinalTail(depth, c.value, cs);
      assert ([c.value] + cs)[0] == c.value;
      assert forall i | 0 <= i < |cs| :: cs[i] == ([c.value] + cs)[i + 1];
    }
  }

  lemma KeepStep(u: Tree, depth: nat, p: seq<Block>, a: Answers, cs: seq<seq<Block>>)
    requires AllKeep(u, depth, p, Listed(a.tip) + Listed(a.range) + Listed(a.block) + cs)
    ensures Keeps3(u, depth, p, a.tip, a.range, a.block)
    ensures AllKeep(u, depth, After3(depth, p, a.tip, a.range, a.block), cs)
  {
    hide AllKeep, After;
    assert Listed(a.tip) + Listed(a.range) + Listed(a.block) + cs ==
      Listed(a.tip) + (Listed(a.range) + (Listed(a.block) + cs));
    KeepOne(u, depth, p, a.tip, Listed(a.range) + (Listed(a.block) + cs));
    var p0 := After(depth, p, a.tip);
    KeepOne(u, depth, p0, a.range, Listed(a.block) + cs);
    KeepOne(u, depth, After(depth, p0, a.range), a.block, cs);
  }

  lemma {:induction false} RunFinal(u: Tree, cfg: Config, origin: Option<Hash>, s: State, p: seq<Block>,
                                    inputs: seq<Answers>)
    requires FullInv(u, cfg, origin, s, p) && Sound(u, s.t) && (forall a | a in inputs :: AnswersAuthentic(u, a))
    requires AllKeep(u, cfg.depth, p, Snapshots(inputs))
    ensures RangesHold(u, cfg, s, inputs)
    ensures var r := RunSteps(u, cfg, s, inputs);
      r.Some? && exists p' :: FullInv(u, cfg, origin, r.value, p')
    decreases |inputs|
  {
    hide FullInv, AllKeep, UpdateStep, Sound, Keeps3, After3, Holds;
    if inputs != [] {
      var a := inputs[0];
      assert AnswersAuthentic(u, a);
      KeepStep(u, cfg.depth, p, a, Snapshots(inputs[1..]));
      StepSettled(u, cfg, origin, s, p, a.tip, a.range, a.block, a.faults);
      var r := StepWith(u, cfg, s, a);
      RunFinal(u, cfg, origin, r.s, After3(cfg.depth, p, a.tip, a.range, a.block), inputs[1..]);
    }
  }

  /** Against a base chain without deep reorgs, every range contains main[L], so that all
      that is proved of such runs applies; and the chainstate is good at all times. */
  lemma FinalIsSafe(u: Tree, cfg: Config, inputs: seq<Answers>)
    requires Settings(u, cfg) && (forall a | a in inputs :: AnswersAuthentic(u, a))
    requires Final(cfg.depth, Snapshots(inputs))
    ensures RangesHold(u, cfg, FRESH, inputs)
    ensures var r := RunSteps(u, cfg, FRESH, inputs);
      r.Some? && (r.value.t == map[] || exists lo, tip :: Good(u, r.value.t, lo, tip))
  {
    hide Good, RangesHold, RunSteps;
    SnapshotsAuthentic(u, inputs);
    assert FullInv(u, cfg, None, FRESH, []);
    RunFinal(u, cfg, None, FRESH, [], inputs);
    var s := RunSteps(u, cfg, FRESH, inputs).value;
    var p :| FullInv(u, cfg, None, s, p);
    if s.t != map[] {
      var lo, tip := FullPlaced(u, cfg, None, s, p);
    }
  }

  lemma {:induction false} SnapshotsAuthentic(u: Tree, inputs: seq<Answers>)
    requires forall a | a in inputs :: AnswersAuthentic(u, a)
    ensures forall i | 0 <= i < |Snapshots(inputs)| :: IsChain(u, Snapshots(inputs)[i])
    decreases |inputs|
  {
    hide IsChain;
    if inputs != [] {
      assert AnswersAuthentic(u, inputs[0]);
      SnapshotsAuthentic(u, inputs[1..]);
    }
  }
}
