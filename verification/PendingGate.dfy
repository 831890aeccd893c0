/** The gate for pending moves: they are pushed only while the chainstate tip and the
    last tip notification of the base chain agree.  Sending can throw. */
module PendingGate {
  import opened BlockTree

  /** The notifications, with what the socket does: whether it takes the batch that is sent
      at once, and how many of the queued batches it takes before it refuses one. */
  datatype Event =
    | TipChanged(tip: Hash)
    | PendingMoves(accepted: bool)
    | ChainstateTipChanged(tip: Hash, accepts: nat)

  /** A batch that was sent: its number, both tips at that time, and how many batches
      had been received before the latest TipChanged. */
  datatype Send = Send(id: nat, chainTip: Hash, baseTip: Hash, since: nat)

  /** The state of the gate with its history.  Batches are numbered as received.  The latest
      tip event was a flush that an exception cut short (cut), and some flush was cut short
      after it had sent a batch (torn). */
  datatype Gate = Gate(chainTip: Hash, baseTip: Hash, queue: seq<nat>, sends: seq<Send>, dropped: set<nat>,
                       received: nat, since: nat, cut: bool, torn: bool)

  const START := Gate(NoHash, NoHash, [], [], {}, 0, 0, false, false)

  function SendAll(g: Gate, ids: seq<nat>): seq<Send> {
    seq(|ids|, i requires 0 <= i < |ids| => Send(ids[i], g.chainTip, g.baseTip, g.since))
  }

  /** Sends the queue; it is only cleared if all of it could be sent. */
  function Flush(g: Gate, accepts: nat): Gate {
    if accepts < |g.queue| then
      g.(sends := g.sends + SendAll(g, g.queue[..accepts]), cut := true, torn := g.torn || accepts > 0)
    else g.(queue := [], sends := g.sends + SendAll(g, g.queue), cut := false)
  }

  /** One notification; None stands for a failed CHECK. */
  function Handle(g: Gate, e: Event): Option<Gate> {
    match e
    case TipChanged(tip) =>
      if tip == NoHash then None
      else Some(g.(queue := [], dropped := g.dropped + (set id | id in g.queue), baseTip := tip, since := g.received,
                   cut := false))
    case PendingMoves(accepted) =>
      var id := g.received;
      var g' := g.(received := id + 1);
      if g.chainTip == NoHash then Some(g'.(dropped := g.dropped + {id}))
      else if g.chainTip == g.baseTip then
        if g.queue != [] then None
        else if accepted then Some(g'.(sends := g.sends + SendAll(g, [id])))
        else Some(g'.(dropped := g.dropped + {id}))
      else Some(g'.(queue := g.queue + [id]))
    case ChainstateTipChanged(tip, accepts) =>
      if tip == NoHash then None
      else
        var g' := g.(chainTip := tip);
        Some(if tip == g.baseTip then Flush(g', accepts) else g'.(cut := false))
  }

  /** The event leaves its handler with an exception. */
  predicate Throws(g: Gate, e: Event) {
    match e
    case TipChanged(_) => false
    case PendingMoves(accepted) => g.chainTip != NoHash && g.chainTip == g.baseTip && g.queue == [] && !accepted
    case ChainstateTipChanged(tip, accepts) => tip == g.baseTip && accepts < |g.queue|
  }

  function Ids(sends: seq<Send>): seq<nat> { seq(|sends|, i requires 0 <= i < |sends| => sends[i].id) }

  ghost predicate Rising(ids: seq<nat>) { forall i, j | 0 <= i < j < |ids| :: ids[i] < ids[j] }

  /** Every send happened while both tips agreed, with a batch from after the latest tip
      change. */
  ghost predicate Timely(sends: seq<Send>) {
    forall s | s in sends :: s.chainTip == s.baseTip && s.since <= s.id
  }

  /** Batches are sent once, in the order in which they were received, and each is exactly
      one of sent, queued and dropped. */
  ghost predicate Once(g: Gate) {
    && Rising(Ids(g.sends) + g.queue)
    && (forall id | id in g.dropped :: id !in Ids(g.sends) && id !in g.queue)
  }

  predicate Twice(ids: seq<nat>, id: nat) { exists i, j | 0 <= i < j < |ids| :: ids[i] == id && ids[j] == id }

  /** Some batch was sent and is still queued, or dropped, or was sent again. */
  ghost predicate Repeated(g: Gate) {
    exists id :: id in Ids(g.sends) && (id in g.queue || id in g.dropped || Twice(Ids(g.sends), id))
  }

  ghost predicate GateInv(g: Gate) {
    // Equal tips mean that nothing is queued, unless the latest flush was cut short.
    && (g.cut <==> g.chainTip == g.baseTip && g.queue != [])
    && (g.chainTip == NoHash ==> g.queue == [])
    && Timely(g.sends)
    && (forall id | id in g.queue :: g.since <= id) && Rising(g.queue) && g.since <= g.received
    && (forall id: nat :: id < g.received <==> id in Ids(g.sends) || id in g.queue || id in g.dropped)
    && (if g.torn then Repeated(g) else Once(g))
  }

  /** Once a batch is repeated, the order is lost for good. */
  lemma RepeatedNotOnce(g: Gate)
    requires Repeated(g)
    ensures !Once(g)
  {
    var ids := Ids(g.sends);
    var id :| id in ids && (id in g.queue || id in g.dropped || Twice(ids, id));
    var all := ids + g.queue;
    if id in g.queue {
      var i :| 0 <= i < |ids| && ids[i] == id;
      var j :| 0 <= j < |g.queue| && g.queue[j] == id;
      assert all[i] == id && all[|ids| + j] == id;
    } else if Twice(ids, id) {
      var i, j :| 0 <= i < j < |ids| && ids[i] == id && ids[j] == id;
      assert all[i] == id && all[j] == id;
    }
  }

  lemma RisingParts(a: seq<nat>, b: seq<nat>)
    requires Rising(a + b)
    ensures Rising(a) && forall x | x in a :: x !in b
  {
    var c := a + b;
    assert forall i | 0 <= i < |a| :: a[i] == c[i];
    assert forall i | 0 <= i < |b| :: b[i] == c[|a| + i];
  }

  /** Sending ids while both tips agree. */
  lemma SendStep(g: Gate, sends: seq<Send>, ids: seq<nat>)
    requires Timely(sends) && g.chainTip == g.baseTip && forall id | id in ids :: g.since <= id
    ensures Ids(sends + SendAll(g, ids)) == Ids(sends) + ids && Timely(sends + SendAll(g, ids))
  {
    var all := sends + SendAll(g, ids);
    forall s | s in all ensures s.chainTip == s.baseTip && s.since <= s.id {
      var i :| 0 <= i < |all| && all[i] == s;
      if i >= |sends| { assert ids[i - |sends|] in ids; } else { assert sends[i] in sends; }
    }
  }

  lemma ArrivalRises(g: Gate)
    requires GateInv(g)
    ensures Rising(g.queue + [g.received])
    ensures Rising(Ids(g.sends) + g.queue) ==> Rising(Ids(g.sends) + g.queue + [g.received])
  {
    var before := Ids(g.sends) + g.queue;
    forall i | 0 <= i < |before| ensures before[i] < g.received {
      assert before[i] in Ids(g.sends) || before[i] in g.queue;
    }
    assert forall i | 0 <= i < |g.queue| :: g.queue[i] in g.queue;
  }

  lemma TipInv(g: Gate, tip: Hash)
    requires GateInv(g) && tip != NoHash
    ensures GateInv(Handle(g, TipChanged(tip)).value)
  {
    hide Rising;
    assert Rising([]) by { NothingRises(); }
    if !g.torn {
      RisingParts(Ids(g.sends), g.queue);
      assert Ids(g.sends) + [] == Ids(g.sends);
    }
  }

  lemma NothingRises()
    ensures Rising([])
  {
  }

  lemma PendingInv(g: Gate, accepted: bool)
    requires GateInv(g)
    ensures Handle(g, PendingMoves(accepted)).None? <==> g.cut
    ensures Handle(g, PendingMoves(accepted)).Some? ==> GateInv(Handle(g, PendingMoves(accepted)).value)
  {
    var r := Handle(g, PendingMoves(accepted));
    if r.Some? {
      var g' := r.value;
      ArrivalRises(g);
      if g'.sends != g.sends {
        SendStep(g, g.sends, [g.received]);
        assert Ids(g.sends) + [] + [g.received] == Ids(g'.sends) + [];
        SentMore(Ids(g.sends), [g.received]);
      } else if g'.queue != g.queue {
        assert Ids(g.sends) + g.queue + [g.received] == Ids(g'.sends) + g'.queue;
      }
    }
  }

  /** What was sent twice stays so. */
  lemma SentMore(ids: seq<nat>, more: seq<nat>)
    ensures forall id | id in ids :: id in ids + more
    ensures forall id | Twice(ids, id) :: Twice(ids + more, id)
    ensures forall id | id in ids && id in more :: Twice(ids + more, id)
  {
    var all := ids + more;
    forall id | Twice(ids, id) ensures Twice(all, id) {
      var i, j :| 0 <= i < j < |ids| && ids[i] == id && ids[j] == id;
      assert all[i] == id && all[j] == id;
    }
    forall id | id in ids && id in more ensures Twice(all, id) {
      var i :| 0 <= i < |ids| && ids[i] == id;
      var j :| 0 <= j < |more| && more[j] == id;
      assert all[i] == id && all[|ids| + j] == id;
    }
  }

  /** A flush that sends the whole queue. */
  lemma FlushAll(g: Gate, tip: Hash, accepts: nat)
    requires GateInv(g) && tip == g.baseTip && accepts >= |g.queue|
    ensures GateInv(Flush(g.(chainTip := tip), accepts))
  {
    var g' := Flush(g.(chainTip := tip), accepts);
    SendStep(g.(chainTip := tip), g.sends, g.queue);
    SentMore(Ids(g.sends), g.queue);
    assert Ids(g'.sends) + [] == Ids(g.sends) + g.queue;
  }

  /** A flush that is cut short. */
  lemma FlushCut(g: Gate, tip: Hash, accepts: nat)
    requires GateInv(g) && tip == g.baseTip && tip != NoHash && accepts < |g.queue|
    ensures GateInv(Flush(g.(chainTip := tip), accepts))
  {
    var g' := Flush(g.(chainTip := tip), accepts);
    var part := g.queue[..accepts];
    assert forall id | id in part :: id in g.queue;
    SendStep(g.(chainTip := tip), g.sends, part);
    SentMore(Ids(g.sends), part);
    if accepts > 0 {
      assert part[0] in Ids(g'.sends) && part[0] in g'.queue;
    } else {
      assert Ids(g'.sends) == Ids(g.sends);
    }
  }

  /** Exactly these events fail a CHECK. */
  predicate Fails(g: Gate, e: Event) {
    if e.PendingMoves? then g.cut else e.tip == NoHash
  }

  lemma HandleInv(g: Gate, e: Event)
    requires GateInv(g)
    ensures Handle(g, e).None? <==> Fails(g, e)
    ensures Handle(g, e).Some? ==> GateInv(Handle(g, e).value)
  {
    match e
    case TipChanged(tip) => if tip != NoHash { TipInv(g, tip); }
    case PendingMoves(accepted) => PendingInv(g, accepted);
    case ChainstateTipChanged(tip, accepts) =>
      if tip == g.baseTip && tip != NoHash {
        if accepts < |g.queue| { FlushCut(g, tip, accepts); } else { FlushAll(g, tip, accepts); }
      }
  }

  function Run(g: Gate, es: seq<Event>): Option<Gate>
    decreases |es|
  {
    if es == [] then Some(g)
    else
      var r := Handle(g, es[0]);
      if r.None? then None else Run(r.value, es[1..])
  }

  /** The run handles all events before number i and then fails. */
  ghost predicate FailsAt(g: Gate, es: seq<Event>, i: nat) {
    i < |es| && Run(g, es[..i]).Some? && Fails(Run(g, es[..i]).value, es[i])
  }

  /** Over every trace: a CHECK fails if and only if a tip is empty, or pending moves arrive
      while the latest tip event is a flush that was cut short; and the invariant holds. */
  lemma {:induction false} TraceInv(g: Gate, es: seq<Event>)
    requires GateInv(g)
    ensures Run(g, es).None? <==> exists i :: FailsAt(g, es, i)
    ensures Run(g, es).Some? ==> GateInv(Run(g, es).value)
    decreases |es|
  {
    hide GateInv, Fails;
    if es != [] {
      HandleInv(g, es[0]);
      assert es[..0] == [];
      if Handle(g, es[0]).Some? {
        var h := Handle(g, es[0]).value;
        TraceInv(h, es[1..]);
        forall i: nat | 0 < i < |es| ensures FailsAt(g, es, i) <==> FailsAt(h, es[1..], i - 1) {
          assert es[..i][1..] == es[1..][..i - 1];
        }
        if i: nat :| FailsAt(h, es[1..], i) { assert FailsAt(g, es, i + 1); }
        assert !FailsAt(g, es, 0);
      } else {
        assert FailsAt(g, es, 0);
      }
    }
  }

  lemma {:induction false} RunLast(g: Gate, es: seq<Event>)
    requires es != [] && Run(g, es).Some?
    ensures var n := |es| - 1;
      Run(g, es[..n]).Some? && Handle(Run(g, es[..n]).value, es[n]) == Run(g, es)
    decreases |es|
  {
    hide Handle;
    var n := |es| - 1;
    if n > 0 {
      assert es[..n][1..] == es[1..][..n - 1];
      RunLast(Handle(g, es[0]).value, es[1..]);
    }
  }

  /** The gate is cut exactly if the last event was a flush that threw: pending moves right
      after that fail, and a tip event decides anew. */
  lemma CutIff(es: seq<Event>)
    requires Run(START, es).Some?
    ensures var n := |es| - 1;
      Run(START, es).value.cut <==>
        && es != [] && es[n].ChainstateTipChanged? && Run(START, es[..n]).Some?
        && Throws(Run(START, es[..n]).value, es[n])
  {
    if es != [] {
      RunLast(START, es);
      hide Run;
      StartInv();
      TraceInv(START, es[..|es| - 1]);
      HandleInv(Run(START, es[..|es| - 1]).value, es[|es| - 1]);
    }
  }

  /** Event number i is a flush that throws after it has sent a batch. */
  ghost predicate TornAt(es: seq<Event>, i: nat) {
    && i < |es| && es[i].ChainstateTipChanged? && es[i].accepts > 0
    && Run(START, es[..i]).Some? && Throws(Run(START, es[..i]).value, es[i])
  }

  lemma {:induction false} TornIff(es: seq<Event>)
    requires Run(START, es).Some?
    ensures Run(START, es).value.torn <==> exists i :: TornAt(es, i)
    decreases |es|
  {
    if es != [] {
      var n := |es| - 1;
      RunLast(START, es);
      hide Run;
      TornIff(es[..n]);
      forall i: nat | i < n ensures TornAt(es, i) <==> TornAt(es[..n], i) {
        assert es[..n][..i] == es[..i];
      }
      if i: nat :| TornAt(es[..n], i) { assert TornAt(es, i); }
      assert TornAt(es, n) <==>
        es[n].ChainstateTipChanged? && es[n].accepts > 0 && Throws(Run(START, es[..n]).value, es[n]);
    }
  }

  /** Batches are sent once and in order, and are exactly one of sent, queued and dropped, if
      and only if no flush ever threw after it had sent a batch. */
  lemma OnceIff(es: seq<Event>)
    requires Run(START, es).Some?
    ensures Once(Run(START, es).value) <==> !exists i :: TornAt(es, i)
  {
    hide Run, Once, TornAt;
    StartInv();
    TraceInv(START, es);
    TornIff(es);
    if Run(START, es).value.torn { RepeatedNotOnce(Run(START, es).value); }
  }

  /** A flush of two batches that throws after the first one, and then one that succeeds: the
      first batch is sent twice. */
  lemma SentTwice(a: Hash, b: Hash)
    requires a != NoHash && b != NoHash && a != b
    ensures var r := Run(START, [ChainstateTipChanged(a, 0), TipChanged(b), PendingMoves(true), PendingMoves(true),
                                 ChainstateTipChanged(b, 1), ChainstateTipChanged(b, 2)]);
      r.Some? && Ids(r.value.sends) == [0, 0, 1]
  {
    var e, f1, f2 := PendingMoves(true), ChainstateTipChanged(b, 1), ChainstateTipChanged(b, 2);
    var g1 := Handle(START, ChainstateTipChanged(a, 0)).value;
    var g2 := Handle(g1, TipChanged(b)).value;
    var g3 := Handle(g2, e).value;
    var g4 := Handle(g3, e).value;
    var g5 := Handle(g4, f1).value;
    var g6 := Handle(g5, f2).value;
    assert g3.queue == [0] && g4.queue == [0, 1] && g5.queue == [0, 1] && g4.queue[..1] == [0];
    assert Ids(g5.sends) == [0] && Ids(g6.sends) == [0, 0, 1];
    assert Run(g6, []) == Some(g6);
    assert Run(g5, [f2]) == Some(g6);
    assert Run(g4, [f1, f2]) == Some(g6);
    assert Run(g3, [e, f1, f2]) == Some(g6);
    assert Run(g2, [e, e, f1, f2]) == Some(g6);
    assert Run(g1, [TipChanged(b), e, e, f1, f2]) == Some(g6);
  }

  lemma StartInv()
    ensures GateInv(START)
  {
  }

  /** A refused send during the flush leaves a full queue with equal tips, and the next
      pending moves abort the process, though no tip is empty. */
  lemma CutFlushAborts(a: Hash, b: Hash)
    requires a != NoHash && b != NoHash && a != b
    ensures Run(START, [ChainstateTipChanged(a, 0), TipChanged(b), PendingMoves(true), ChainstateTipChanged(b, 0),
                        PendingMoves(true)]).None?
  {
    var e := PendingMoves(true);
    var g1 := Handle(START, ChainstateTipChanged(a, 0)).value;
    var g2 := Handle(g1, TipChanged(b)).value;
    var g3 := Handle(g2, e).value;
    var g4 := Handle(g3, ChainstateTipChanged(b, 0)).value;
    assert g3.queue == [0] && g4.queue == [0] && Handle(g4, e).None?;
    assert Run(g4, [e]).None?;
    assert Run(g3, [ChainstateTipChanged(b, 0), e]).None?;
    assert Run(g2, [e, ChainstateTipChanged(b, 0), e]).None?;
    assert Run(g1, [TipChanged(b), e, ChainstateTipChanged(b, 0), e]).None?;
  }

  datatype Outcome = Handled | Threw | Died

  /** The manager itself.  The moves of a batch are identified by its number. */
  class PendingManager {
    var chainstateTip: Hash
    var notificationTip: Hash
    var pendingsQueue: seq<nat>
    var sent: seq<nat>
    ghost var gate: Gate

    ghost predicate Valid()
      reads this
    {
      && GateInv(gate) && chainstateTip == gate.chainTip && notificationTip == gate.baseTip
      && pendingsQueue == gate.queue && sent == Ids(gate.sends)
    }

    constructor ()
      ensures Valid() && gate == START
    {
      chainstateTip, notificationTip, pendingsQueue, sent, gate := NoHash, NoHash, [], [], START;
    }

    method NotifyTip(tip: Hash) returns (r: Outcome)
      requires Valid()
      modifies this
      ensures r == if Fails(old(gate), TipChanged(tip)) then Died else Handled
      ensures r != Died ==> Valid() && Some(gate) == Handle(old(gate), TipChanged(tip))
    {
      HandleInv(gate, TipChanged(tip));
      pendingsQueue := [];
      notificationTip := tip;
      if notificationTip == NoHash { return Died; }
      gate := Handle(gate, TipChanged(tip)).value;
      return Handled;
    }

    method NotifyPending(moves: nat, accepted: bool) returns (r: Outcome)
      requires Valid() && moves == gate.received
      modifies this
      ensures var e := PendingMoves(accepted);
        r == if Fails(old(gate), e) then Died else if Throws(old(gate), e) then Threw else Handled
      ensures r != Died ==> Valid() && Some(gate) == Handle(old(gate), PendingMoves(accepted))
    {
      HandleInv(gate, PendingMoves(accepted));
      if chainstateTip == NoHash {
        gate := Handle(gate, PendingMoves(accepted)).value;
        return Handled;
      }
      if chainstateTip == notificationTip {
        if pendingsQueue != [] { return Died; }
        SendStep(gate, gate.sends, [moves]);
        gate := Handle(gate, PendingMoves(accepted)).value;
        if !accepted { return Threw; }
        sent := sent + [moves];
        return Handled;
      }
      gate := Handle(gate, PendingMoves(accepted)).value;
      pendingsQueue := pendingsQueue + [moves];
      return Handled;
    }

    method NotifyChainstate(newTip: Hash, accepts: nat) returns (r: Outcome)
      requires Valid()
      modifies this
      ensures var e := ChainstateTipChanged(newTip, accepts);
        r == if Fails(old(gate), e) then Died else if Throws(old(gate), e) then Threw else Handled
      ensures r != Died ==> Valid() && Some(gate) == Handle(old(gate), ChainstateTipChanged(newTip, accepts))
    {
      ghost var e := ChainstateTipChanged(newTip, accepts);
      HandleInv(gate, e);
      hide GateInv;
      chainstateTip := newTip;
      if chainstateTip == NoHash { return Died; }
      gate := Handle(gate, e).value;
      if chainstateTip == notificationTip {
        for i := 0 to |pendingsQueue|
          invariant i <= accepts && chainstateTip == newTip && unchanged(`notificationTip) && unchanged(`pendingsQueue)
          invariant sent == old(sent) + pendingsQueue[..i]
          invariant gate == Handle(old(gate), e).value
        {
          if i == accepts {
            SentIds(old(gate), newTip, pendingsQueue[..i]);
            return Threw;
          }
          sent := sent + [pendingsQueue[i]];
        }
        SentIds(old(gate), newTip, pendingsQueue);
        pendingsQueue := [];
      }
      return Handled;
    }
  }

  lemma SentIds(g: Gate, tip: Hash, ids: seq<nat>)
    ensures Ids(g.sends + SendAll(g.(chainTip := tip), ids)) == Ids(g.sends) + ids
  {
  }
}
