/** Where blocks come from: whatever is stored or sent is, with all its data, a block that an
    answer of the base chain contained. */
module Provenance {
  import opened BlockTree
  import opened ChainTable
  import opened Reorg
  import opened Notify
  import opened SyncSpec
  import opened SyncRuns
  import opened Finality

  /** All stored blocks are from a set. */
  ghost predicate Stores(t: Table, all: set<Block>) { forall x | x in t :: t[x].blk in all }

  ghost predicate Within(bs: seq<Block>, all: set<Block>) { forall b | b in bs :: b in all }

  ghost predicate Tells(msgs: seq<Msg>, all: set<Block>) { forall m | m in msgs :: m.blk in all }

  lemma {:induction false} WalkStored(t: Table, h: Hash, all: set<Block>)
    requires Stepped(t) && Stores(t, all)
    ensures Within(ForkWalk(t, h), all)
    decreases if h in t then t[h].blk.height + 1 else 0
  {
    if OffMain(t, h) {
      assert StepsDown(t, h);
      WalkStored(t, t[h].blk.parent, all);
    }
  }

  lemma SetTipStores(u: Tree, t: Table, b: Block, all: set<Block>)
    requires Sound(u, t) && Fits(u, b) && Stores(t, all) && b in all && SetTip(u, t, b).Attached?
    ensures Stores(SetTip(u, t, b).table, all)
  {
    hide SetTip;
    SetTipKeepsBlocks(u, t, b);
  }

  lemma {:induction false} AttachRestStores(u: Tree, t: Table, bs: seq<Block>, i: nat, all: set<Block>)
    requires Sound(u, t) && 1 <= i <= |bs| && (forall b | b in bs :: Fits(u, b)) && Stores(t, all) && Within(bs, all)
    requires AttachRest(u, t, bs, i).Some?
    ensures Stores(AttachRest(u, t, bs, i).value, all)
    decreases |bs| - i
  {
    hide SetTip;
    if i < |bs| {
      SetTipStores(u, t, bs[i], all);
      AttachRestStores(u, SetTip(u, t, bs[i]).table, bs, i + 1, all);
    }
  }

  lemma AttachStores(u: Tree, t: Table, bs: seq<Block>, all: set<Block>)
    requires Sound(u, t) && (forall b | b in bs :: Fits(u, b)) && Stores(t, all) && Within(bs, all)
    requires AttachBlocks(u, t, bs).AttachedBlocks?
    ensures bs != [] && Stores(AttachBlocks(u, t, bs).t, all)
  {
    hide SetTip, AttachRest;
    SetTipStores(u, t, bs[0], all);
    AttachRestStores(u, SetTip(u, t, bs[0]).table, bs, 1, all);
  }

  lemma ListWithin(u: Tree, t: Table, bs: seq<Block>, all: set<Block>)
    requires Sound(u, t) && bs != [] && Stores(t, all) && Within(bs, all)
    ensures Within(AttachList(u, t, bs), all)
  {
    SoundIsStepped(u, t);
    var w := ForkWalk(t, bs[0].parent);
    WalkStored(t, bs[0].parent, all);
    forall b | b in Reversed(w) ensures b in all {
      var i :| 0 <= i < |w| && Reversed(w)[i] == b;
      assert w[|w| - 1 - i] in w;
    }
  }

  lemma {:induction false} AboveWithin(bs: seq<Block>, h: nat, all: set<Block>)
    requires Within(bs, all)
    ensures Within(Above(bs, h), all)
  {
    if bs != [] { AboveWithin(bs[1..], h, all); }
  }

  lemma MessagesTell(bs: seq<Block>, all: set<Block>)
    requires Within(bs, all)
    ensures Tells(Detaches(bs), all) && Tells(Attaches(bs), all)
  {
  }

  /** A tip update sends stored blocks and blocks from its list. */
  lemma PushTells(u: Tree, t: Table, oldTip: Hash, attaches: seq<Block>, c: seq<Block>, all: set<Block>)
    requires Sound(u, t) && attaches != [] && Stores(t, all) && Within(attaches, all)
    ensures var p := PushZmqBlocks(u, t, oldTip, NoHash, attaches, 0, c, c, c); p.Pushed? ==> Tells(p.msgs, all)
  {
    hide Detaches, Attaches, LowestHeight, HeightOf, Above, ForkWalk, Within;
    SoundIsStepped(u, t);
    MessagesTell(attaches, all);
    NothingWithin(all);
    WalkStored(t, oldTip, all);
    MessagesTell(ForkWalk(t, oldTip), all);
    MessagesTell([], all);
    var h := if oldTip in t && ForkWalk(t, oldTip) != [] then MinusOne(Last(ForkWalk(t, oldTip)).height)
             else if oldTip in t then t[oldTip].blk.height
             else if HeightOf(c, oldTip) >= 0 then HeightOf(c, oldTip) else 0;
    AboveWithin(attaches, h, all);
    MessagesTell(Above(attaches, h), all);
  }

  lemma NothingWithin(all: set<Block>)
    ensures Within([], all)
  {
  }

  lemma CallbackTells(u: Tree, cfg: Config, t: Table, oldTip: Hash, attaches: seq<Block>, c: seq<Block>, throws: bool,
                      all: set<Block>)
    requires Sound(u, t) && Stores(t, all) && Within(attaches, all)
    ensures var r := TipUpdatedFrom(u, cfg, t, oldTip, attaches, c, throws);
      && (!r.CallbackAborted? ==> Tells(r.msgs, all))
      && (r.Notified? ==> Stores(r.t, all))
  {
    hide PushZmqBlocks, TipHeight;
    if attaches != [] { PushTells(u, t, oldTip, attaches, c, all); }
    var h := TipHeight(t);
    if h > cfg.depth + 1 { PruneDeletes(t, h - cfg.depth - 1); }
  }

  // ----- Steps

  /** All that is stored or was sent is from a set. */
  ghost predicate Contained(s: State, all: set<Block>) { Stores(s.t, all) && Tells(s.sent, all) }

  lemma RangeWithin(c: seq<Block>, start: nat, n: nat, all: set<Block>)
    requires Within(c, all)
    ensures Within(Range(c, start, n), all)
  {
  }

  lemma ImportContained(u: Tree, cfg: Config, s: State, height: nat, c: Reply, throws: bool, all: set<Block>)
    requires Sound(u, s.t) && Authenticated(u, c) && Contained(s, all) && (c.Some? ==> Within(c.value, all))
    ensures var r := ImportNewTip(u, cfg, s, height, c, throws); !r.StepAborted? ==> Contained(r.s, all)
  {
    hide ImportTip, TipUpdatedFrom, Within;
    if c.Some? {
      var bs := Range(c.value, height, 1);
      RangeWithin(c.value, height, 1, all);
      if bs != [] && ImportTip(u, s.t, bs[0]).Imported? {
        ImportKeepsBlocks(u, s.t, bs[0]);
        FirstWithin(bs, all);
        CallbackTells(u, cfg, ImportTip(u, s.t, bs[0]).table, NoHash, bs, c.value, throws, all);
      }
    }
  }

  lemma FirstWithin(bs: seq<Block>, all: set<Block>)
    requires bs != [] && Within(bs, all)
    ensures bs[0] in all
  {
  }

  lemma ExtendContained(u: Tree, cfg: Config, s: State, t: Table, oldTip: Hash, bs: seq<Block>, num: nat,
                        c1: seq<Block>, throws: bool, all: set<Block>)
    requires Sound(u, s.t) && Sound(u, t) && bs != [] && Contained(s, all) && Stores(t, all) && Within(bs, all)
    ensures var e := Extend(u, cfg, s, t, oldTip, bs, num, c1, throws); !e.StepAborted? ==> Contained(e.s, all)
  {
    hide TipUpdatedFrom, AttachList, Within, Stores, Sound;
    ListWithin(u, s.t, bs, all);
    CallbackTells(u, cfg, t, oldTip, AttachList(u, s.t, bs), c1, throws, all);
  }

  lemma AdvanceContained(u: Tree, cfg: Config, s: State, t: Table, oldTip: Hash, bs: seq<Block>, num: nat,
                         c1: seq<Block>, g: nat, c2: Reply, f: Faults, all: set<Block>)
    requires Sound(u, s.t) && Sound(u, t) && bs != [] && Authenticated(u, c2) && Contained(s, all) && Stores(t, all)
    requires Within(bs, all) && (c2.Some? ==> Within(c2.value, all))
    ensures var r := Advance(u, cfg, s, t, oldTip, bs, num, c1, g, c2, f); !r.StepAborted? ==> Contained(r.s, all)
  {
    hide ImportNewTip, Extend, Within, Stores, Tells, Sound;
    ExtendContained(u, cfg, s, t, oldTip, bs, num, c1, f.attach, all);
    var e := Extend(u, cfg, s, t, oldTip, bs, num, c1, f.attach);
    if e.Done? && e.more && Last(bs).height < g { ImportContained(u, cfg, e.s, g, c2, f.jump, all); }
  }

  lemma StepContained(u: Tree, cfg: Config, s: State, a: Answers, all: set<Block>)
    requires Sound(u, s.t) && AnswersAuthentic(u, a) && Contained(s, all)
    requires (a.range.Some? ==> Within(a.range.value, all)) && (a.block.Some? ==> Within(a.block.value, all))
    ensures var r := StepWith(u, cfg, s, a); !r.StepAborted? ==> Contained(r.s, all)
  {
    hide ImportNewTip, AttachBlocks, Advance, Within, Stores, Tells, TipHeight, LowestHeight;
    if a.tip.Some? {
      ImportContained(u, cfg, s, GenesisHeight(cfg, a.tip.value), a.block, a.faults.jump, all);
      var start := if s.next == -1 then TipHeight(s.t) else s.next;
      if a.range.Some? && start >= 0 {
        var num := Max(s.numBlocks, 3);
        var bs := Range(a.range.value, start, num);
        RangeWithin(a.range.value, start, num, all);
        RangeFits(u, a.range.value, start, num);
        var r := AttachBlocks(u, s.t, bs);
        if r.AttachedBlocks? {
          AttachStores(u, s.t, bs, all);
          AdvanceContained(u, cfg, s, r.t, r.oldTip, bs, num, a.range.value, GenesisHeight(cfg, a.tip.value), a.block,
                           a.faults, all);
        }
      }
    }
  }

  lemma RangeFits(u: Tree, c: seq<Block>, start: nat, num: nat)
    requires IsChain(u, c)
    ensures forall b | b in Range(c, start, num) :: Fits(u, b)
  {
  }

  // ----- Runs

  /** All blocks that were in some answer. */
  function Seen(cs: seq<seq<Block>>): set<Block> { set c, b | c in cs && b in c :: b }

  lemma {:induction false} RunContained(u: Tree, cfg: Config, s: State, inputs: seq<Answers>, all: set<Block>)
    requires Sound(u, s.t) && (forall a | a in inputs :: AnswersAuthentic(u, a)) && Contained(s, all)
    requires Seen(Snapshots(inputs)) <= all
    ensures var r := RunSteps(u, cfg, s, inputs); r.Some? ==> Contained(r.value, all)
    decreases |inputs|
  {
    hide StepWith, Contained, AnswersAuthentic, Sound;
    if inputs != [] {
      var a := inputs[0];
      assert AnswersAuthentic(u, a);
      AnswersSeen(inputs, all);
      StepContained(u, cfg, s, a, all);
      var r := StepWith(u, cfg, s, a);
      if !r.StepAborted? { RunContained(u, cfg, r.s, inputs[1..], all); }
    }
  }

  lemma AnswersSeen(inputs: seq<Answers>, all: set<Block>)
    requires inputs != [] && Seen(Snapshots(inputs)) <= all
    ensures Seen(Snapshots(inputs[1..])) <= all
    ensures var a := inputs[0];
      && (a.range.Some? ==> Within(a.range.value, all)) && (a.block.Some? ==> Within(a.block.value, all))
  {
    var a := inputs[0];
    var rest := Snapshots(inputs[1..]);
    var cs := Snapshots(inputs);
    assert forall c | c in rest :: c in cs;
    assert forall c | c in Listed(a.range) + Listed(a.block) :: c in cs;
    if a.range.Some? { assert a.range.value in Listed(a.range); }
    if a.block.Some? { assert a.block.value in Listed(a.block); }
    assert forall c, b | c in cs && b in c :: b in Seen(cs);
  }

  /** No answer gives two different blocks under one hash. */
  ghost predicate Agree(all: set<Block>) { forall a, b | a in all && b in all && a.hash == b.hash :: a == b }

  /** Over every run from an empty database: what is stored or was sent is, with all its data, a
      block of some answer; so if the answers agree, every message, detach or attach, has
      exactly the block that the base chain handed in under its hash. */
  lemma NothingMadeUp(u: Tree, cfg: Config, inputs: seq<Answers>)
    requires WellFormed(u) && (forall a | a in inputs :: AnswersAuthentic(u, a))
    requires RunSteps(u, cfg, FRESH, inputs).Some?
    ensures var s := RunSteps(u, cfg, FRESH, inputs).value; var all := Seen(Snapshots(inputs));
      && (forall x | x in s.t :: s.t[x].blk in all)
      && (forall m | m in s.sent :: m.blk in all)
      && (Agree(all) ==> forall m, b | m in s.sent && b in all && b.hash == m.blk.hash :: m.blk == b)
  {
    hide RunSteps, Seen, Snapshots;
    RunContained(u, cfg, FRESH, inputs, Seen(Snapshots(inputs)));
  }
}
