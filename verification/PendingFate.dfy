/** What becomes of each batch of pending moves, told from the notifications alone. */
module PendingFate {
  import opened BlockTree
  import opened PendingGate

  /** The tip that the chainstate was last notified of, if any. */
  function LastChainTip(es: seq<Event>): Hash {
    if es == [] then NoHash
    else if es[|es| - 1].ChainstateTipChanged? then es[|es| - 1].tip
    else LastChainTip(es[..|es| - 1])
  }

  /** The tip that the base chain last notified of, if any. */
  function LastBaseTip(es: seq<Event>): Hash {
    if es == [] then NoHash
    else if es[|es| - 1].TipChanged? then es[|es| - 1].tip
    else LastBaseTip(es[..|es| - 1])
  }

  /** How many batches have come, which is the number that the next one gets. */
  function Batches(es: seq<Event>): nat {
    if es == [] then 0 else Batches(es[..|es| - 1]) + if es[|es| - 1].PendingMoves? then 1 else 0
  }

  lemma {:induction false} TipsAfter(es: seq<Event>)
    requires Run(START, es).Some?
    ensures var g := Run(START, es).value;
      g.chainTip == LastChainTip(es) && g.baseTip == LastBaseTip(es) && g.received == Batches(es) && GateInv(g)
    decreases |es|
  {
    StartInv();
    TraceInv(START, es);
    hide GateInv;
    if es != [] {
      RunLast(START, es);
      hide Run;
      TipsAfter(es[..|es| - 1]);
    }
  }

  /** The state before the last event and the one after it. */
  ghost predicate Steps(es: seq<Event>, g: Gate, e: Event, g': Gate) {
    es != [] && es[|es| - 1] == e && Run(START, es[..|es| - 1]) == Some(g) && Run(START, es) == Some(g')
  }

  /** A batch is dropped on receipt if and only if there is no chainstate tip yet, or the
      tips agree and the socket refuses it, which throws; with tips that agree it is sent
      at once if the socket takes it; and otherwise it is queued. */
  lemma ReceiptOutcome(es: seq<Event>, g: Gate, accepted: bool, g': Gate)
    requires Steps(es, g, PendingMoves(accepted), g')
    ensures var before := es[..|es| - 1];
      var id, chain, base := Batches(before), LastChainTip(before), LastBaseTip(before);
      && id !in Ids(g.sends) && id !in g.queue && id !in g.dropped
      && Ids(g'.sends) == (if chain != NoHash && chain == base && accepted then Ids(g.sends) + [id]
                           else Ids(g.sends))
      && g'.queue == (if chain != NoHash && chain != base then g.queue + [id] else g.queue)
      && g'.dropped == (if chain == NoHash || (chain == base && !accepted) then g.dropped + {id} else g.dropped)
      && (Throws(g, PendingMoves(accepted)) <==> chain != NoHash && chain == base && !accepted)
  {
    var before := es[..|es| - 1];
    RunLast(START, es);
    TipsAfter(before);
    hide Run, Once, Repeated, Timely, Rising;
    HandleInv(g, PendingMoves(accepted));
    if g.chainTip == g.baseTip && g.chainTip != NoHash && accepted {
      assert Ids(g'.sends) == Ids(g.sends) + [g.received];
    }
  }

  /** A new tip of the base chain drops the whole queue and sends nothing. */
  lemma TipOutcome(es: seq<Event>, g: Gate, tip: Hash, g': Gate)
    requires Steps(es, g, TipChanged(tip), g')
    ensures g'.queue == [] && g'.sends == g.sends && g'.dropped == g.dropped + (set id | id in g.queue)
    ensures !Throws(g, TipChanged(tip))
  {
    RunLast(START, es);
  }

  /** A chainstate tip that agrees with the base chain sends as much of the queue as the
      socket takes, in order, and throws if that is not all of it; then the whole queue is
      kept.  Any other chainstate tip changes nothing. */
  lemma FlushOutcome(es: seq<Event>, g: Gate, tip: Hash, accepts: nat, g': Gate)
    requires Steps(es, g, ChainstateTipChanged(tip, accepts), g')
    ensures var agree := tip == LastBaseTip(es);
      var taken := if !agree then [] else if accepts < |g.queue| then g.queue[..accepts] else g.queue;
      && Ids(g'.sends) == Ids(g.sends) + taken && g'.dropped == g.dropped
      && g'.queue == (if agree && accepts >= |g.queue| then [] else g.queue)
      && (Throws(g, ChainstateTipChanged(tip, accepts)) <==> agree && accepts < |g.queue|)
  {
    RunLast(START, es);
    TipsAfter(es[..|es| - 1]);
    var agree := tip == LastBaseTip(es);
    var taken := if !agree then [] else if accepts < |g.queue| then g.queue[..accepts] else g.queue;
    if agree {
      SentIds(g, tip, taken);
    } else {
      assert Ids(g.sends) + [] == Ids(g.sends);
    }
  }

  /** Whether event i decides about what is queued. */
  ghost predicate Decides(es: seq<Event>, i: nat) {
    i < |es| && (es[i].TipChanged? || (es[i].ChainstateTipChanged? && es[i].tip == LastBaseTip(es[..i])))
  }

  /** Before the next event that decides, what is queued stays at the head of the queue, and
      nothing of it is sent or dropped. */
  lemma {:induction false} QueuedUntil(es: seq<Event>, i: nat, j: nat)
    requires i <= j <= |es| && Run(START, es[..j]).Some?
    requires forall k | i <= k < j :: !Decides(es, k)
    ensures Run(START, es[..i]).Some?
    ensures var g, h := Run(START, es[..i]).value, Run(START, es[..j]).value;
      && g.queue <= h.queue
      && forall id | id in g.queue ::
           (id in Ids(h.sends) ==> id in Ids(g.sends)) && (id in h.dropped ==> id in g.dropped)
    decreases j
  {
    if i < j {
      var n := j - 1;
      RunLast(START, es[..j]);
      assert es[..j][..n] == es[..n];
      QueuedUntil(es, i, n);
      var f, h := Run(START, es[..n]).value, Run(START, es[..j]).value;
      assert Steps(es[..j], f, es[n], h);
      assert !Decides(es, n);
      match es[n] {
        case PendingMoves(accepted) =>
          hide Run;
          TipsAfter(es[..n]);
          ReceiptOutcome(es[..j], f, accepted, h);
        case ChainstateTipChanged(tip, accepts) =>
          assert LastBaseTip(es[..j]) == LastBaseTip(es[..n]);
          FlushOutcome(es[..j], f, tip, accepts, h);
        case TipChanged(_) => assert false;
      }
    }
  }

  /** The fate of a queued batch: the first later event that decides drops it if it is a new
      tip of the base chain, and otherwise sends it if the socket takes it and all batches
      that are queued before it. */
  lemma QueuedFate(es: seq<Event>, i: nat, j: nat, at: nat)
    requires i <= j < |es| && Run(START, es[..j + 1]).Some?
    requires Decides(es, j) && forall k | i <= k < j :: !Decides(es, k)
    requires Run(START, es[..i]).Some? ==> at < |Run(START, es[..i]).value.queue|
    ensures Run(START, es[..i]).Some?
    ensures var g, h := Run(START, es[..i]).value, Run(START, es[..j + 1]).value;
      var id := g.queue[at];
      && (es[j].TipChanged? ==> id in h.dropped)
      && (es[j].ChainstateTipChanged? && at < es[j].accepts ==> id in Ids(h.sends))
      && (es[j].ChainstateTipChanged? && at >= es[j].accepts ==>
            id in h.queue && (id in Ids(h.sends) ==> id in Ids(g.sends)))
  {
    RunLast(START, es[..j + 1]);
    assert es[..j + 1][..j] == es[..j];
    QueuedUntil(es, i, j);
    var g, f, h := Run(START, es[..i]).value, Run(START, es[..j]).value, Run(START, es[..j + 1]).value;
    assert Steps(es[..j + 1], f, es[j], h);
    var id := g.queue[at];
    assert f.queue[at] == id && id in f.queue;
    match es[j] {
      case TipChanged(tip) => TipOutcome(es[..j + 1], f, tip, h);
      case ChainstateTipChanged(tip, accepts) =>
        hide Run;
        TipsAfter(es[..j]);
        assert LastBaseTip(es[..j + 1]) == LastBaseTip(es[..j]);
        FlushOutcome(es[..j + 1], f, tip, accepts, h);
        assert id !in f.queue[..if accepts < |f.queue| then accepts else 0] || at < accepts;
    }
  }
}
