/** Whole runs of the sync task. */
module SyncRuns {
  import opened BlockTree
  import opened ChainTable
  import opened Reorg
  import opened Notify
  import opened SyncSpec
  import opened SyncSafety

  // ----- The message stream

  /** Where the messages since the last import, or else all messages since the
      start of the process, lead. */
  ghost function StreamEnd(origin: Option<Hash>, imports: seq<nat>, sent: seq<Msg>): Option<Hash> {
    if imports == [] then
      if origin.None? then None else Walk(origin.value, sent)
    else SegmentEnd(imports[|imports| - 1], |sent|, sent)
  }

  /** Where the messages from an import up to message number end lead. */
  ghost function SegmentEnd(i: nat, end: nat, sent: seq<Msg>): Option<Hash> {
    if i < end <= |sent| && sent[i].Attach? then Walk(sent[i].blk.parent, sent[i..end]) else None
  }

  /** Between any two imports the messages are a legal walk, and so are the ones
      before the first import; the last walk ends at tip.  The process starts with
      the tip origin, or with an empty chainstate. */
  ghost predicate Follows(origin: Option<Hash>, imports: seq<nat>, sent: seq<Msg>, tip: Hash) {
    && StreamEnd(origin, imports, sent) == Some(tip)
    && (forall j, k | 0 <= j && k == j + 1 < |imports| :: SegmentEnd(imports[j], imports[k], sent).Some?)
    && (imports != [] ==> imports[0] <= |sent|)
    && (imports != [] && origin.None? ==> imports[0] == 0)
    && (imports != [] && origin.Some? ==> Walk(origin.value, sent[..imports[0]]).Some?)
  }

  lemma FollowsMore(origin: Option<Hash>, imports: seq<nat>, sent: seq<Msg>, tip: Hash, msgs: seq<Msg>, tip': Hash)
    requires Follows(origin, imports, sent, tip) && Walk(tip, msgs) == Some(tip')
    ensures Follows(origin, imports, sent + msgs, tip')
  {
    var all := sent + msgs;
    if imports == [] {
      WalkConcat(origin.value, sent, msgs, tip);
    } else {
      var i := imports[|imports| - 1];
      assert sent[i..|sent|] == sent[i..];
      WalkConcat(sent[i].blk.parent, sent[i..], msgs, tip);
      assert all[i..|all|] == sent[i..] + msgs;
      assert all[..imports[0]] == sent[..imports[0]];
      SegmentsKept(imports, sent, msgs);
    }
  }

  lemma SegmentsKept(imports: seq<nat>, sent: seq<Msg>, msgs: seq<Msg>)
    requires forall j, k | 0 <= j && k == j + 1 < |imports| :: SegmentEnd(imports[j], imports[k], sent).Some?
    ensures forall j, k | 0 <= j && k == j + 1 < |imports| :: SegmentEnd(imports[j], imports[k], sent + msgs).Some?
  {
    forall j, k | 0 <= j && k == j + 1 < |imports| ensures SegmentEnd(imports[j], imports[k], sent + msgs).Some? {
      assert SegmentEnd(imports[j], imports[k], sent).Some?;
      assert (sent + msgs)[imports[j]..imports[k]] == sent[imports[j]..imports[k]];
    }
  }

  lemma FollowsImport(origin: Option<Hash>, imports: seq<nat>, sent: seq<Msg>, tip: Option<Hash>, b: Block)
    requires if tip.Some? then Follows(origin, imports, sent, tip.value)
             else origin.None? && imports == [] && sent == []
    ensures Follows(origin, imports + [|sent|], sent + [Attach(b)], b.hash)
  {
    var all := sent + [Attach(b)];
    var imports' := imports + [|sent|];
    assert all[|sent|..|all|] == [Attach(b)] && all[|sent|] == Attach(b);
    assert Walk(b.parent, [Attach(b)]) == Some(b.hash);
    SegmentsKept(imports, sent, [Attach(b)]);
    if imports != [] {
      var i := imports[|imports| - 1];
      assert all[i..|sent|] == sent[i..|sent|];
      assert all[..imports[0]] == sent[..imports[0]];
    } else {
      assert all[..|sent|] == sent;
    }
    forall j, k | 0 <= j && k == j + 1 < |imports'| ensures SegmentEnd(imports'[j], imports'[k], all).Some? {
      if k < |imports| { assert SegmentEnd(imports[j], imports[k], all).Some?; }
    }
  }

  // ----- The invariant of the sync task

  ghost predicate Placed(u: Tree, origin: Option<Hash>, s: State, lo: nat, tip: Hash) {
    && Steady(u, s.t, lo, tip)
    && (s.next == -1 || lo <= s.next <= u[tip].height)
    && Follows(origin, s.imports, s.sent, tip)
  }

  ghost predicate Settings(u: Tree, cfg: Config) {
    WellFormed(u) && NoHash !in u && 1 <= cfg.range < 0x8000_0000
  }

  /** Nothing was imported or sent yet. */
  ghost predicate Unstarted(origin: Option<Hash>, s: State) {
    s.t == map[] && s.next == -1 && origin.None? && s.sent == [] && s.imports == []
  }

  ghost predicate SyncInv(u: Tree, cfg: Config, origin: Option<Hash>, s: State) {
    && Settings(u, cfg) && 1 <= s.numBlocks <= cfg.range
    && (Unstarted(origin, s) || exists lo, tip :: Placed(u, origin, s, lo, tip))
  }

  /** The answer comes from a chain that contains the local main[L]. */
  ghost predicate Holds(u: Tree, t: Table, c: Reply) {
    c.Some? ==> IsChain(u, c.value) && forall lo, tip | Steady(u, t, lo, tip) :: Contains(u, c.value, lo, tip)
  }

  // ----- One step

  lemma DoubledBounds(cfg: Config, n: nat)
    requires 1 <= cfg.range < 0x8000_0000 && 1 <= n <= cfg.range
    ensures 1 <= Doubled(cfg, n) <= cfg.range
  {
  }

  lemma ImportInv(u: Tree, cfg: Config, origin: Option<Hash>, s: State, s': State, b: Block)
    requires SyncInv(u, cfg, origin, s) && s.next == -1 && ImportedAt(u, s, s', b)
    ensures Placed(u, origin, s', b.height, b.hash) && SyncInv(u, cfg, origin, s')
  {
    hide Steady, Follows;
    if lo, tip :| Placed(u, origin, s, lo, tip) {
      FollowsImport(origin, s.imports, s.sent, Some(tip), b);
    } else {
      FollowsImport(origin, s.imports, s.sent, None, b);
    }
  }

  /** The state after the blocks of a range were attached. */
  lemma ExtendInv(u: Tree, cfg: Config, origin: Option<Hash>, s: State, lo: nat, tip: Hash,
                  c: seq<Block>, start: nat, bs: seq<Block>, num: nat, throws: bool) returns (lo': nat)
    requires SyncInv(u, cfg, origin, s) && Placed(u, origin, s, lo, tip) && Contains(u, c, lo, tip)
    requires Slice(u, c, start, bs) && lo <= start && |bs| <= num
    requires AttachBlocks(u, s.t, bs).AttachedBlocks?
    ensures var a := AttachBlocks(u, s.t, bs);
      var r := Extend(u, cfg, s, a.t, tip, bs, num, c, throws);
      && a.oldTip == tip && !r.StepAborted? && (r.Done? ==> (r.more <==> |bs| == num)) && r.s.next == -1
      && Extended(u, cfg, s.t, lo, tip, c, start + |bs| - 1, r.s.t, lo')
      && Placed(u, origin, r.s, lo', Last(bs).hash) && SyncInv(u, cfg, origin, r.s)
  {
    hide UniqueSlots, Contiguous, Grounded, Bottomed, MainIs, Extend, AttachBlocks, TipMessages, Follows, MainIsRange,
      Extended, LoAfter;
    lo' := ExtendGood(u, cfg, s, lo, tip, c, start, bs, num, throws);
    var r := Extend(u, cfg, s, AttachBlocks(u, s.t, bs).t, tip, bs, num, c, throws);
    assert r.s.sent == s.sent + r.s.sent[|s.sent|..];
    FollowsMore(origin, s.imports, s.sent, tip, r.s.sent[|s.sent|..], Last(bs).hash);
    ExtendedSteady(u, cfg, s.t, lo, tip, c, start + |bs| - 1, r.s.t, lo');
  }

  lemma ExtendedSteady(u: Tree, cfg: Config, t: Table, lo: nat, tip: Hash, c: seq<Block>, k: nat, t': Table, lo': nat)
    requires Extended(u, cfg, t, lo, tip, c, k, t', lo')
    ensures lo <= k < |c| && Steady(u, t', lo', c[k].hash) && (Good(u, t, lo, tip) ==> Good(u, t', lo', c[k].hash))
  {
  }

  /** After a full range up to block k of c: the jump forward, or a larger batch next time. */
  ghost predicate Jumped(u: Tree, t: Table, lo: nat, c: seq<Block>, k: nat, g: nat, c2: Reply,
                         t': Table, lo': nat, tip': Hash)
  {
    && c2.Some? && k < g < |c2.value| && lo' == g && tip' == c2.value[g].hash && k < |c|
    && Steady(u, t', lo', tip')
    && (Good(u, t, lo, c[k].hash) && c2.value[k] == c[k] ==> Good(u, t', lo', tip'))
  }

  lemma ContinueInv(u: Tree, cfg: Config, origin: Option<Hash>, s: State, lo: nat, c: seq<Block>, k: nat, g: nat,
                    c2: Reply, throws: bool)
    returns (lo': nat, tip': Hash)
    requires SyncInv(u, cfg, origin, s) && s.next == -1 && IsChain(u, c) && k < |c|
    requires Placed(u, origin, s, lo, c[k].hash) && Authenticated(u, c2)
    ensures var r := Continue(u, cfg, s, k, g, c2, throws);
      && !r.StepAborted? && SyncInv(u, cfg, origin, r.s) && (r.Done? ==> r.more)
      && Placed(u, origin, r.s, lo', tip')
      && ((r.s.t == s.t && lo' == lo && tip' == c[k].hash) || Jumped(u, s.t, lo, c, k, g, c2, r.s.t, lo', tip'))
  {
    hide UniqueSlots, Contiguous, Grounded, Bottomed, MainIs, ImportNewTip, Follows;
    assert Fits(u, c[k]);
    BatchInv(u, cfg, origin, s, lo, c[k].hash);
    lo', tip' := lo, c[k].hash;
    if k < g {
      if c2.Some? {
        TipStored(u, s.t, lo, c[k].hash);
        ImportStep(u, cfg, s, lo, c[k].hash, lo, g, c2.value, throws);
        if g < |c2.value| {
          assert Fits(u, c2.value[g]);
          ImportInv(u, cfg, origin, s, ImportNewTip(u, cfg, s, g, c2, throws).s, c2.value[g]);
          lo', tip' := g, c2.value[g].hash;
        }
      } else {
        ImportThrows(u, cfg, s, g, throws);
      }
    }
  }

  lemma ImportThrows(u: Tree, cfg: Config, s: State, g: nat, throws: bool)
    requires Sound(u, s.t)
    ensures ImportNewTip(u, cfg, s, g, None, throws) == Threw(s)
  {
  }

  lemma BatchInv(u: Tree, cfg: Config, origin: Option<Hash>, s: State, lo: nat, tip: Hash)
    requires SyncInv(u, cfg, origin, s) && Placed(u, origin, s, lo, tip)
    ensures var s' := s.(numBlocks := Doubled(cfg, s.numBlocks));
      SyncInv(u, cfg, origin, s') && Placed(u, origin, s', lo, tip)
  {
    DoubledBounds(cfg, s.numBlocks);
    assert Placed(u, origin, s.(numBlocks := Doubled(cfg, s.numBlocks)), lo, tip);
  }

  /** Going back: the new start height is lower, but not below L. */
  lemma SearchInv(u: Tree, cfg: Config, origin: Option<Hash>, s: State, lo: nat, tip: Hash, start: nat, num: nat)
    requires SyncInv(u, cfg, origin, s) && Placed(u, origin, s, lo, tip)
    requires lo < start <= u[tip].height && num > 0
    ensures var r := SearchBack(cfg, s, start, num);
      && r.Done? && r.more && SyncInv(u, cfg, origin, r.s) && Placed(u, origin, r.s, lo, tip)
      && r.s.t == s.t && lo <= r.s.next < start
  {
    hide UniqueSlots, Contiguous, Bottomed, MainIs, Follows;
    Queries(u, s.t, lo, tip);
    DoubledBounds(cfg, s.numBlocks);
    assert Placed(u, origin, SearchBack(cfg, s, start, num).s, lo, tip);
  }

  /** Where a step leads: nowhere, up chain c1, or to an imported block of c2. */
  ghost predicate Moved(u: Tree, cfg: Config, t: Table, lo: nat, tip: Hash, c1: seq<Block>, g: nat, c2: Reply,
                        t': Table, lo': nat, tip': Hash)
  {
    || (t' == t && lo' == lo && tip' == tip)
    || (exists k :: ExtendedTo(u, cfg, t, lo, tip, c1, k, t', lo', tip'))
    || (exists k, t1, lo1 ::
          Extended(u, cfg, t, lo, tip, c1, k, t1, lo1) && Jumped(u, t1, lo1, c1, k, g, c2, t', lo', tip'))
  }

  ghost predicate ExtendedTo(u: Tree, cfg: Config, t: Table, lo: nat, tip: Hash, c: seq<Block>, k: nat, t': Table,
                             lo': nat, tip': Hash)
  {
    Extended(u, cfg, t, lo, tip, c, k, t', lo') && tip' == c[k].hash
  }

  lemma AdvanceInv(u: Tree, cfg: Config, origin: Option<Hash>, s: State, lo: nat, tip: Hash,
                   c: seq<Block>, start: nat, bs: seq<Block>, num: nat, g: nat, c2: Reply, f: Faults)
    returns (lo': nat, tip': Hash)
    requires SyncInv(u, cfg, origin, s) && Placed(u, origin, s, lo, tip) && Contains(u, c, lo, tip)
    requires Slice(u, c, start, bs) && lo <= start && |bs| <= num
    requires AttachBlocks(u, s.t, bs).AttachedBlocks? && Authenticated(u, c2)
    ensures var a := AttachBlocks(u, s.t, bs);
      var r := Advance(u, cfg, s, a.t, tip, bs, num, c, g, c2, f);
      && a.oldTip == tip && !r.StepAborted? && SyncInv(u, cfg, origin, r.s)
      && (r.Done? ==> (r.more <==> |bs| == num))
      && Placed(u, origin, r.s, lo', tip') && Moved(u, cfg, s.t, lo, tip, c, g, c2, r.s.t, lo', tip')
  {
    hide UniqueSlots, Contiguous, Grounded, Bottomed, MainIs, AttachBlocks, Extend, Continue, Follows, SyncInv,
      Extended, Jumped;
    var lo1 := ExtendInv(u, cfg, origin, s, lo, tip, c, start, bs, num, f.attach);
    var e := Extend(u, cfg, s, AttachBlocks(u, s.t, bs).t, tip, bs, num, c, f.attach);
    var k := start + |bs| - 1;
    lo', tip' := lo1, Last(bs).hash;
    assert ExtendedTo(u, cfg, s.t, lo, tip, c, k, e.s.t, lo1, tip');
    if e.Done? && e.more {
      lo', tip' := ContinueInv(u, cfg, origin, e.s, lo1, c, k, g, c2, f.jump);
    }
  }

  lemma NothingFits(u: Tree, t: Table)
    requires Sound(u, t)
    ensures AttachBlocks(u, t, []) == NoFit
  {
  }

  /** Where the next range starts. */
  ghost function StartHeight(u: Tree, s: State, tip: Hash): int
    requires tip in u
  {
    if s.next == -1 then u[tip].height else s.next
  }

  /** What the first block of the range decides. */
  ghost function AttemptStep(u: Tree, cfg: Config, s: State, start: nat, c0: seq<Block>, c1: seq<Block>, c2: Reply,
                             f: Faults := NO_FAULTS): Step
    requires Sound(u, s.t) && IsChain(u, c0) && IsChain(u, c1) && Authenticated(u, c2)
  {
    var num := Max(s.numBlocks, 3);
    var bs := Range(c1, start, num);
    match AttachBlocks(u, s.t, bs)
    case NoFit => SearchBack(cfg, s, start, num)
    case AttemptAborted => StepAborted
    case AttachedBlocks(t, oldTip) => Advance(u, cfg, s, t, oldTip, bs, num, c1, GenesisHeight(cfg, c0), c2, f)
  }

  lemma StepValue(u: Tree, cfg: Config, s: State, lo: nat, tip: Hash, c0: seq<Block>, c1: seq<Block>, c2: Reply,
                  f: Faults := NO_FAULTS)
    requires Sound(u, s.t) && MainIs(u, s.t, lo, tip) && StartHeight(u, s, tip) >= 0
    requires IsChain(u, c0) && IsChain(u, c1) && Authenticated(u, c2)
    ensures UpdateStep(u, cfg, s, Some(c0), Some(c1), c2, f) ==
      AttemptStep(u, cfg, s, StartHeight(u, s, tip), c0, c1, c2, f)
  {
    hide AttachBlocks, SearchBack, Advance, MainIs;
    Queries(u, s.t, lo, tip);
  }

  /** A step on a chainstate with blocks, when the range comes from a chain that contains
      main[L].  The other two answers may come from any chain. */
  lemma {:induction false} RunningStep(u: Tree, cfg: Config, origin: Option<Hash>, s: State, lo: nat, tip: Hash,
                    c0: seq<Block>, c1: seq<Block>, c2: Reply, f: Faults := NO_FAULTS) returns (lo': nat, tip': Hash)
    requires SyncInv(u, cfg, origin, s) && Placed(u, origin, s, lo, tip)
    requires IsChain(u, c0) && IsChain(u, c1) && Contains(u, c1, lo, tip) && Authenticated(u, c2)
    ensures var r := UpdateStep(u, cfg, s, Some(c0), Some(c1), c2, f);
      && !r.StepAborted? && SyncInv(u, cfg, origin, r.s) && Placed(u, origin, r.s, lo', tip')
      && Moved(u, cfg, s.t, lo, tip, c1, GenesisHeight(cfg, c0), c2, r.s.t, lo', tip')
  {
    var g := GenesisHeight(cfg, c0);
    hide UniqueSlots, Contiguous, Grounded, Bottomed, MainIs, AttachBlocks, Advance, SearchBack, Follows, Range,
      IsChain,
      SyncInv, Moved, UpdateStep;
    TipStored(u, s.t, lo, tip);
    StepValue(u, cfg, s, lo, tip, c0, c1, c2, f);
    var start := StartHeight(u, s, tip);
    var num := Max(s.numBlocks, 3);
    var bs := Range(c1, start, num);
    RangeSlice(u, c1, start, num);
    if bs != [] {
      AttachBlocksGood(u, s.t, lo, tip, c1, start, bs);
    } else {
      NothingFits(u, s.t);
    }
    if AttachBlocks(u, s.t, bs).NoFit? {
      SearchInv(u, cfg, origin, s, lo, tip, start, num);
      lo', tip' := lo, tip;
      Unmoved(u, cfg, s.t, lo, tip, c1, g, c2);
    } else {
      lo', tip' := AdvanceInv(u, cfg, origin, s, lo, tip, c1, start, bs, num, g, c2, f);
    }
  }

  lemma Unmoved(u: Tree, cfg: Config, t: Table, lo: nat, tip: Hash, c1: seq<Block>, g: nat, c2: Reply)
    ensures Moved(u, cfg, t, lo, tip, c1, g, c2, t, lo, tip)
  {
  }

  /** The first step imports a block of any chain. */
  lemma EmptyStep(u: Tree, cfg: Config, origin: Option<Hash>, s: State, c0: seq<Block>, c1: Reply, c2: Reply,
                  f: Faults := NO_FAULTS)
    requires SyncInv(u, cfg, origin, s) && s.t == map[]
    requires IsChain(u, c0) && Authenticated(u, c1) && Authenticated(u, c2)
    ensures var r := UpdateStep(u, cfg, s, Some(c0), c1, c2, f); var g := GenesisHeight(cfg, c0);
      && !r.StepAborted? && SyncInv(u, cfg, origin, r.s)
      && (|| r.s == s
          || (&& c2.Some? && g < |c2.value| && Placed(u, origin, r.s, g, c2.value[g].hash)
              && Good(u, r.s.t, g, c2.value[g].hash)))
  {
    hide Follows;
    assert TipHeight(map[]) == -1;
    var g := GenesisHeight(cfg, c0);
    if c2.Some? {
      hide ImportNewTip;
      FirstImportStep(u, cfg, s, g, c2.value, f.jump);
      if g < |c2.value| {
        assert Fits(u, c2.value[g]);
        ImportInv(u, cfg, origin, s, ImportNewTip(u, cfg, s, g, c2, f.jump).s, c2.value[g]);
      }
    }
  }

  /** No step aborts, and the invariant is kept, as long as the range of blocks comes from a
      chain that contains the local main[L], whatever the other answers are, and whether or
      not the callback throws. */
  lemma StepSafe(u: Tree, cfg: Config, origin: Option<Hash>, s: State, c0: Reply, c1: Reply, c2: Reply, f: Faults)
    requires SyncInv(u, cfg, origin, s) && Sound(u, s.t)
    requires Authenticated(u, c0) && Holds(u, s.t, c1) && Authenticated(u, c2)
    ensures var r := UpdateStep(u, cfg, s, c0, c1, c2, f);
      !r.StepAborted? && SyncInv(u, cfg, origin, r.s)
  {
    hide UniqueSlots, Contiguous, Bottomed, MainIs, AttachBlocks, Advance, SearchBack, Follows, Range, IsChain,
      ImportNewTip,
      Contains;
    if c0.Some? && s.t == map[] {
      EmptyStep(u, cfg, origin, s, c0.value, c1, c2, f);
    } else if c0.Some? {
      var lo, tip :| Placed(u, origin, s, lo, tip);
      if c1.None? {
        Queries(u, s.t, lo, tip);
      } else {
        var lo', tip' := RunningStep(u, cfg, origin, s, lo, tip, c0.value, c1.value, c2, f);
      }
    }
  }

  // ----- Runs

  /** What the base chain answers during one step, and whether callbacks throw. */
  datatype Answers = Answers(tip: Reply, range: Reply, block: Reply, faults: Faults := NO_FAULTS)

  /** The step with these answers. */
  ghost function StepWith(u: Tree, cfg: Config, s: State, a: Answers): (r: Step)
    requires Sound(u, s.t) && AnswersAuthentic(u, a)
    ensures !r.StepAborted? ==> Sound(u, r.s.t)
  {
    UpdateStep(u, cfg, s, a.tip, a.range, a.block, a.faults)
  }

  ghost predicate AnswersAuthentic(u: Tree, a: Answers) {
    Authenticated(u, a.tip) && Authenticated(u, a.range) && Authenticated(u, a.block)
  }

  /** The state after a number of steps; None if one of them aborts.  An exception
      ends only its own step. */
  ghost function RunSteps(u: Tree, cfg: Config, s: State, inputs: seq<Answers>): (r: Option<State>)
    requires Sound(u, s.t) && forall a | a in inputs :: AnswersAuthentic(u, a)
    ensures r.Some? ==> Sound(u, r.value.t)
    decreases |inputs|
  {
    if inputs == [] then Some(s)
    else
      var a := inputs[0];
      assert AnswersAuthentic(u, a);
      var r := StepWith(u, cfg, s, a);
      if r.StepAborted? then None else RunSteps(u, cfg, r.s, inputs[1..])
  }

  /** Every range comes from a chain that contains main[L] of the chainstate at that time. */
  ghost predicate RangesHold(u: Tree, cfg: Config, s: State, inputs: seq<Answers>)
    requires Sound(u, s.t) && forall a | a in inputs :: AnswersAuthentic(u, a)
    decreases |inputs|
  {
    inputs == [] ||
    (var a := inputs[0];
     assert AnswersAuthentic(u, a);
     && Holds(u, s.t, a.range)
     && var r := StepWith(u, cfg, s, a);
        !r.StepAborted? ==> RangesHold(u, cfg, r.s, inputs[1..]))
  }

  lemma {:induction false} RunSafe(u: Tree, cfg: Config, origin: Option<Hash>, s: State, inputs: seq<Answers>)
    requires SyncInv(u, cfg, origin, s) && Sound(u, s.t) && (forall a | a in inputs :: AnswersAuthentic(u, a))
    requires RangesHold(u, cfg, s, inputs)
    ensures var r := RunSteps(u, cfg, s, inputs); r.Some? && SyncInv(u, cfg, origin, r.value)
    decreases |inputs|
  {
    hide SyncInv, UpdateStep, Sound, Holds;
    if inputs != [] {
      var a := inputs[0];
      assert AnswersAuthentic(u, a);
      StepSafe(u, cfg, origin, s, a.tip, a.range, a.block, a.faults);
      RunSafe(u, cfg, origin, StepWith(u, cfg, s, a).s, inputs[1..]);
    }
  }

  /** The state in which Sync::Start leaves a process with an empty database. */
  const FRESH := State(map[], 1, -1, [], [])

  /** As long as every range comes from a chain with the then-current main[L], the sync
      task never fails a CHECK; the chainstate is steady at all times, and following the
      messages since the last import leads to its tip. */
  lemma SyncNeverAborts(u: Tree, cfg: Config, inputs: seq<Answers>)
    requires Settings(u, cfg) && (forall a | a in inputs :: AnswersAuthentic(u, a))
    requires RangesHold(u, cfg, FRESH, inputs)
    ensures var r := RunSteps(u, cfg, FRESH, inputs);
      && r.Some? && 1 <= r.value.numBlocks <= cfg.range
      && (r.value.t == map[] ||
          exists lo, tip :: Steady(u, r.value.t, lo, tip) && Follows(None, r.value.imports, r.value.sent, tip))
  {
    hide Steady, Follows, RangesHold, RunSteps;
    assert SyncInv(u, cfg, None, FRESH);
    RunSafe(u, cfg, None, FRESH, inputs);
    var s := RunSteps(u, cfg, FRESH, inputs).value;
    if s.t != map[] {
      var lo, tip :| Placed(u, None, s, lo, tip);
    }
  }

  /** In every chainstate that the sync task can reach like that, a request is answered
      with a legal walk; it aborts exactly if nothing has been imported yet. */
  lemma RequestsLegal(u: Tree, cfg: Config, inputs: seq<Answers>, from: Hash, to: Hash, num: nat,
                      cf: seq<Block>, ct: seq<Block>, cr: seq<Block>)
    requires Settings(u, cfg) && (forall a | a in inputs :: AnswersAuthentic(u, a))
    requires RangesHold(u, cfg, FRESH, inputs) && IsChain(u, cf) && IsChain(u, ct) && IsChain(u, cr)
    ensures RunSteps(u, cfg, FRESH, inputs).Some?
    ensures var t := RunSteps(u, cfg, FRESH, inputs).value.t;
      var p := PushZmqBlocks(u, t, from, to, [], num, cf, ct, cr);
      && (p.CheckFailed? <==> t == map[] && from != NoHash)
      && (p.Pushed? ==> LegalAnswer(from, p))
      && (t != map[] ==> LowestHeight(t) >= 0 && EndsKnown(t, LowestHeight(t), p))
  {
    hide RunSteps, RangesHold, Follows, PushZmqBlocks, LegalAnswer, UniqueSlots, Contiguous, Bottomed, Accepted,
      DetachQueryEmpty;
    SyncNeverAborts(u, cfg, inputs);
    var t := RunSteps(u, cfg, FRESH, inputs).value.t;
    if t == map[] {
      SendUpdatesEmpty(u, from, to, num, cf, ct, cr);
    } else {
      var lo, tip :| Steady(u, t, lo, tip);
      SendUpdatesLegal(u, t, lo, tip, from, to, num, cf, ct, cr);
      Queries(u, t, lo, tip);
    }
    PushedIfLegal(from, PushZmqBlocks(u, t, from, to, [], num, cf, ct, cr));
  }

  lemma PushedIfLegal(from: Hash, p: Push)
    ensures LegalAnswer(from, p) ==> p.Pushed?
  {
  }
}
