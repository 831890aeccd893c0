/** The sync task as a state machine: one update step against a base chain whose
    every answer may come from a different snapshot. */
module SyncSpec {
  import opened BlockTree
  import opened ChainTable
  import opened Reorg
  import opened ChainRuns
  import opened Notify

  /** Maximum reorg depth, --xayax_block_range, and whether sanity checks are on. */
  datatype Config = Config(depth: nat, range: int, sanity: bool)

  /** The chainstate, the two fields of Sync, the untagged messages sent so far, and
      where among them the messages for imported tips are. */
  datatype State = State(t: Table, numBlocks: nat, next: int, sent: seq<Msg>, imports: seq<nat>)

  datatype Step = Done(s: State, more: bool) | Threw(s: State) | StepAborted

  /** The answer of the base chain: a snapshot, or an exception. */
  type Reply = Option<seq<Block>>

  /** Whether the callback throws once its messages are sent, as the pending gate may do:
      after blocks were attached, and after an import. */
  datatype Faults = Faults(attach: bool, jump: bool)

  const NO_FAULTS := Faults(false, false)

  ghost predicate Authenticated(u: Tree, c: Reply) { c.Some? ==> IsChain(u, c.value) }

  function Doubled(cfg: Config, n: nat): (r: nat)
    requires cfg.range >= 1
    ensures 2 * n < 0x1_0000_0000 ==> r == if 2 * n < cfg.range then 2 * n else cfg.range
  {
    Min(cfg.range, U32(n * 2))
  }

  // ----- The callback

  datatype Callback = Notified(msgs: seq<Msg>, t: Table) | CallbackThrew(msgs: seq<Msg>) | CallbackAborted

  function Pruned(cfg: Config, t: Table, tipHeight: int): Table {
    if tipHeight > cfg.depth + 1 then PruneTable(t, tipHeight - cfg.depth - 1) else t
  }

  ghost function TipUpdatedFrom(u: Tree, cfg: Config, t: Table, oldTip: Hash, attaches: seq<Block>, c: seq<Block>,
                                throws: bool := false): (r: Callback)
    requires Sound(u, t)
    ensures r.Notified? ==> Sound(u, r.t)
  {
    if attaches == [] then CallbackAborted
    else
      var p := PushZmqBlocks(u, t, oldTip, NoHash, attaches, 0, c, c, c);
      if !p.Pushed? then CallbackAborted
      else if throws then CallbackThrew(p.msgs)
      else if cfg.sanity && !Sane(t) then CallbackAborted
      else Notified(p.msgs, Pruned(cfg, t, TipHeight(t)))
  }

  // ----- The step

  ghost function ImportNewTip(u: Tree, cfg: Config, s: State, height: nat, c: Reply, throws: bool := false): (r: Step)
    requires Sound(u, s.t) && Authenticated(u, c)
    ensures !r.StepAborted? ==> Sound(u, r.s.t)
  {
    if c.None? then Threw(s)
    else
      var blocks := Range(c.value, height, 1);
      if blocks == [] then Done(s, false)
      else
        match ImportTip(u, s.t, blocks[0])
        case ImportAborted => StepAborted
        case Imported(t') =>
          var s' := s.(t := t', imports := s.imports + [|s.sent|]);
          match TipUpdatedFrom(u, cfg, t', NoHash, blocks, c.value, throws)
          case CallbackAborted => StepAborted
          case CallbackThrew(msgs) => Threw(s'.(sent := s.sent + msgs))
          case Notified(msgs, t'') => Done(s'.(t := t'', sent := s.sent + msgs), true)
  }

  /** The blocks after the first one, each of which must extend the tip. */
  ghost function AttachRest(u: Tree, t: Table, bs: seq<Block>, i: nat): (r: Option<Table>)
    requires Sound(u, t) && 1 <= i <= |bs| && forall b | b in bs :: Fits(u, b)
    ensures r.Some? ==> Sound(u, r.value)
    decreases |bs| - i
  {
    if i == |bs| then Some(t)
    else
      var r := SetTip(u, t, bs[i]);
      if r.Attached? && r.oldTip == bs[i].parent && r.oldTip == bs[i - 1].hash
      then AttachRest(u, r.table, bs, i + 1)
      else None
  }

  datatype Attempt = NoFit | AttachedBlocks(t: Table, oldTip: Hash) | AttemptAborted

  ghost function AttachBlocks(u: Tree, t: Table, bs: seq<Block>): (r: Attempt)
    requires Sound(u, t) && forall b | b in bs :: Fits(u, b)
    ensures r.AttachedBlocks? ==> Sound(u, r.t)
  {
    if bs == [] then NoFit
    else
      match SetTip(u, t, bs[0])
      case Rejected => NoFit
      case Aborted => AttemptAborted
      case Attached(t1, oldTip) =>
        match AttachRest(u, t1, bs, 1)
        case None => AttemptAborted
        case Some(t2) => AttachedBlocks(t2, oldTip)
  }

  /** The blocks handed to the callback: the reactivated fork branch, then the new ones. */
  ghost function AttachList(u: Tree, t: Table, bs: seq<Block>): seq<Block>
    requires Sound(u, t) && bs != []
  {
    SoundIsStepped(u, t);
    Reversed(ForkWalk(t, bs[0].parent)) + bs
  }

  /** Going further back after a failed attempt from start. */
  ghost function SearchBack(cfg: Config, s: State, start: int, num: nat): Step {
    var next := Max(LowestHeight(s.t), start - num);
    if cfg.range < 1 || next >= start then StepAborted
    else Done(s.(numBlocks := Doubled(cfg, s.numBlocks), next := next), true)
  }

  /** After a successful attempt: notify, then decide whether to continue. */
  ghost function Extend(u: Tree, cfg: Config, s: State, t: Table, oldTip: Hash, bs: seq<Block>, num: nat,
                        c: seq<Block>, throws: bool := false): (r: Step)
    requires Sound(u, s.t) && Sound(u, t) && bs != []
    ensures !r.StepAborted? ==> Sound(u, r.s.t)
  {
    var cb := if oldTip != Last(bs).hash then TipUpdatedFrom(u, cfg, t, oldTip, AttachList(u, s.t, bs), c, throws)
              else Notified([], t);
    if cb.CallbackAborted? then StepAborted
    else if cb.CallbackThrew? then Threw(State(t, s.numBlocks, -1, s.sent + cb.msgs, s.imports))
    else if |bs| < num then Done(State(cb.t, 1, -1, s.sent + cb.msgs, s.imports), false)
    else Done(State(cb.t, s.numBlocks, -1, s.sent + cb.msgs, s.imports), true)
  }

  /** A jump forward by import if far behind, else larger batches. */
  ghost function Continue(u: Tree, cfg: Config, s: State, height: nat, genesis: nat, c: Reply, throws: bool := false):
    (r: Step)
    requires Sound(u, s.t) && Authenticated(u, c)
    ensures !r.StepAborted? ==> Sound(u, r.s.t)
  {
    var jump := if height < genesis then ImportNewTip(u, cfg, s, genesis, c, throws) else Done(s, false);
    if !jump.Done? || jump.more then jump
    else if cfg.range < 1 then StepAborted
    else Done(s.(numBlocks := Doubled(cfg, s.numBlocks)), true)
  }

  /** All that follows a successful attempt. */
  ghost function Advance(u: Tree, cfg: Config, s: State, t: Table, oldTip: Hash, bs: seq<Block>, num: nat,
                         c1: seq<Block>, genesis: nat, c2: Reply, f: Faults := NO_FAULTS): (r: Step)
    requires Sound(u, s.t) && Sound(u, t) && bs != [] && Authenticated(u, c2)
    ensures !r.StepAborted? ==> Sound(u, r.s.t)
  {
    var e := Extend(u, cfg, s, t, oldTip, bs, num, c1, f.attach);
    if e.Done? && e.more then Continue(u, cfg, e.s, Last(bs).height, genesis, c2, f.jump) else e
  }

  function GenesisHeight(cfg: Config, c: seq<Block>): nat
    requires c != []
  {
    if |c| - 1 < cfg.depth then 0 else |c| - 1 - cfg.depth
  }

  /** One update step.  The base chain answers GetTipHeight from c0, the block
      range from c1, and the block to import from c2. */
  ghost function UpdateStep(u: Tree, cfg: Config, s: State, c0: Reply, c1: Reply, c2: Reply, f: Faults := NO_FAULTS):
    (r: Step)
    requires Sound(u, s.t) && Authenticated(u, c0) && Authenticated(u, c1) && Authenticated(u, c2)
    ensures !r.StepAborted? ==> Sound(u, r.s.t)
  {
    if c0.None? then Threw(s)
    else
      var genesis := GenesisHeight(cfg, c0.value);
      if s.next == -1 && TipHeight(s.t) == -1 then ImportNewTip(u, cfg, s, genesis, c2, f.jump)
      else
        var start := if s.next == -1 then TipHeight(s.t) else s.next;
        var num := Max(s.numBlocks, 3);
        if start < 0 then StepAborted
        else if c1.None? then Threw(s)
        else
          var bs := Range(c1.value, start, num);
          match AttachBlocks(u, s.t, bs)
          case NoFit => SearchBack(cfg, s, start, num)
          case AttemptAborted => StepAborted
          case AttachedBlocks(t, oldTip) =>
            Advance(u, cfg, s, t, oldTip, bs, num, c1.value, genesis, c2, f)
  }
}
