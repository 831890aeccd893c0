/** The pool of pending transactions of the Ethereum connector.  Its two lock sections
    are separate steps, so that any number of calls can be in flight at a time. */
module Mempool {
  import opened BlockTree
  import opened Positions

  /** A pending transaction: its hash, the lower-case sender address, and its nonce. */
  datatype Tx = Tx(hash: nat, from: string, nonce: int)

  /** What the node says about one transaction. */
  datatype Status = RpcError | Unknown | Confirmed(hash: nat) | Pending(tx: Tx)

  // ----- The order of the result

  predicate Less(a: string, b: string) {
    if b == [] then false
    else if a == [] then true
    else a[0] < b[0] || (a[0] == b[0] && Less(a[1..], b[1..]))
  }

  /** It is the order of dictionaries: a proper prefix comes first, and otherwise the first
      place where the strings differ decides. */
  lemma {:induction false} LessIff(a: string, b: string)
    ensures Less(a, b) <==>
      exists n | 0 <= n < |b| && n <= |a| :: a[..n] == b[..n] && (n == |a| || a[n] < b[n])
    decreases |a|
  {
    if b != [] {
      assert a[..0] == b[..0];
      if a != [] && a[0] == b[0] {
        LessIff(a[1..], b[1..]);
        forall n | 0 < n < |b| && n <= |a| ensures a[..n] == b[..n] <==> a[1..][..n - 1] == b[1..][..n - 1] {
          assert a[..n] == [a[0]] + a[1..][..n - 1] && b[..n] == [b[0]] + b[1..][..n - 1];
        }
        if Less(a, b) {
          var n :| 0 <= n < |b| - 1 && n <= |a| - 1 && a[1..][..n] == b[1..][..n] &&
                   (n == |a| - 1 || a[1..][n] < b[1..][n]);
          assert a[..n + 1] == b[..n + 1];
        }
        if n :| 0 <= n < |b| && n <= |a| && a[..n] == b[..n] && (n == |a| || a[n] < b[n]) {
          assert a[1..][..n - 1] == b[1..][..n - 1];
        }
      } else {
        forall n | 0 < n < |b| && n <= |a| ensures a[..n] != b[..n] {
          assert a[..n][0] == a[0] && b[..n][0] == b[0];
        }
      }
    }
  }

  /** Sender first, then nonce. */
  predicate IsEarlier(a: Tx, b: Tx) {
    if a.from != b.from then Less(a.from, b.from) else a.nonce < b.nonce
  }

  lemma {:induction false} LessOrder(a: string, b: string, c: string)
    ensures !Less(a, a)
    ensures Less(a, b) && Less(b, c) ==> Less(a, c)
    ensures Less(a, b) || Less(b, a) || a == b
    decreases |a| + |b| + |c|
  {
    if a != [] {
      LessOrder(a[1..], if b == [] then b else b[1..], if c == [] then c else c[1..]);
      if b != [] && a[0] == b[0] && a[1..] == b[1..] {
        assert a == [a[0]] + a[1..] && b == [b[0]] + b[1..];
      }
    }
  }

  /** The comparator is a strict weak order: irreflexive, transitive, and what can not
      be told apart is an equivalence (same sender and nonce). */
  lemma StrictWeakOrder(a: Tx, b: Tx, c: Tx)
    ensures !IsEarlier(a, a)
    ensures IsEarlier(a, b) && IsEarlier(b, c) ==> IsEarlier(a, c)
    ensures !IsEarlier(a, b) && !IsEarlier(b, a) <==> a.from == b.from && a.nonce == b.nonce
  {
    LessOrder(a.from, b.from, c.from);
    LessOrder(b.from, a.from, a.from);
  }

  /** No transaction comes before one that is earlier. */
  ghost predicate Sorted(s: seq<Tx>) {
    forall i, j | 0 <= i < j < |s| :: !IsEarlier(s[j], s[i])
  }

  lemma NotEarlierTrans(a: Tx, b: Tx, c: Tx)
    requires !IsEarlier(b, a) && !IsEarlier(c, b)
    ensures !IsEarlier(c, a)
  {
    StrictWeakOrder(a, b, c);
    StrictWeakOrder(c, a, b);
    StrictWeakOrder(b, c, a);
  }

  /** Transactions of the same sender are ordered by nonce, and others by sender. */
  ghost predicate InNonceOrder(s: seq<Tx>) {
    forall i, j | 0 <= i < j < |s| ::
      if s[i].from == s[j].from then s[i].nonce <= s[j].nonce else Less(s[i].from, s[j].from)
  }

  lemma SortedMeans(s: seq<Tx>)
    requires Sorted(s)
    ensures InNonceOrder(s)
  {
    forall i, j | 0 <= i < j < |s| && s[i].from != s[j].from ensures Less(s[i].from, s[j].from) {
      LessOrder(s[i].from, s[j].from, s[i].from);
      assert !IsEarlier(s[j], s[i]);
    }
  }

  /** Inserts a transaction behind all that are not later. */
  method Insert(s: seq<Tx>, x: Tx) returns (r: seq<Tx>)
    requires Sorted(s)
    ensures Sorted(r) && multiset(r) == multiset(s) + multiset{x}
  {
    var i := |s|;
    while i > 0 && IsEarlier(x, s[i - 1])
      invariant 0 <= i <= |s|
      invariant forall k | i <= k < |s| :: IsEarlier(x, s[k])
    {
      i := i - 1;
    }
    forall k | 0 <= k < i ensures !IsEarlier(x, s[k]) {
      if k < i - 1 { NotEarlierTrans(s[k], s[i - 1], x); }
    }
    forall k | i <= k < |s| ensures !IsEarlier(s[k], x) {
      StrictWeakOrder(x, s[k], x);
    }
    r := s[..i] + [x] + s[i..];
    InsertSorted(s, i, x);
    assert s == s[..i] + s[i..];
  }

  lemma InsertSorted(s: seq<Tx>, i: nat, x: Tx)
    requires Sorted(s) && i <= |s|
    requires forall k | 0 <= k < i :: !IsEarlier(x, s[k])
    requires forall k | i <= k < |s| :: !IsEarlier(s[k], x)
    ensures Sorted(s[..i] + [x] + s[i..])
  {
  }

  method Sort(s: seq<Tx>) returns (r: seq<Tx>)
    ensures Sorted(r) && multiset(r) == multiset(s)
  {
    r := [];
    for i := 0 to |s|
      invariant Sorted(r) && multiset(r) == multiset(s[..i])
    {
      assert s[..i + 1] == s[..i] + [s[i]];
      r := Insert(r, s[i]);
    }
    assert s[..|s|] == s;
  }

  // ----- The pool

  /** The transactions of a snapshot that the node reports as gone. */
  predicate Gone(s: Status) { s.Unknown? || s.Confirmed? }

  /** The node answers for every transaction of the snapshot, with the right hash. */
  predicate ProperAnswers(snapshot: seq<nat>, answers: seq<Status>) {
    |answers| == |snapshot| &&
    forall i | 0 <= i < |snapshot| ::
      match answers[i]
      case RpcError => false
      case Unknown => true
      case Confirmed(h) => h == snapshot[i]
      case Pending(tx) => tx.hash == snapshot[i]
  }

  function StillPending(answers: seq<Status>): seq<Tx> {
    if answers == [] then []
    else
      var a := answers[|answers| - 1];
      StillPending(answers[..|answers| - 1]) + (if a.Pending? then [a.tx] else [])
  }

  ghost function AnsweredPending(): Status -> bool { (s: Status) => s.Pending? }

  /** The transactions that were answered as pending, in the order of the answers. */
  lemma {:induction false} StillPendingExact(answers: seq<Status>) returns (at: seq<nat>)
    ensures Picks(at, answers, AnsweredPending()) && |StillPending(answers)| == |at|
    ensures forall k | 0 <= k < |at| :: at[k] < |answers| && answers[at[k]] == Pending(StillPending(answers)[k])
    decreases |answers|
  {
    hide Picks;
    at := [];
    if answers == [] {
      PicksNone(AnsweredPending());
    } else {
      var n := |answers| - 1;
      at := StillPendingExact(answers[..n]);
      PicksMore(at, answers, n, AnsweredPending());
      if AnsweredPending()(answers[n]) { at := at + [n]; }
    }
  }

  ghost predicate AllDistinct(txids: seq<nat>) { forall i, j | 0 <= i < j < |txids| :: txids[i] != txids[j] }

  function Hashes(s: seq<Tx>): seq<nat> { seq(|s|, i requires 0 <= i < |s| => s[i].hash) }

  lemma StillPendingDistinct(txids: seq<nat>, answers: seq<Status>)
    requires ProperAnswers(txids, answers) && AllDistinct(txids)
    ensures AllDistinct(Hashes(StillPending(answers)))
  {
    var at := StillPendingExact(answers);
    var s := StillPending(answers);
    forall i, j | 0 <= i < j < |s| ensures s[i].hash != s[j].hash {
      assert at[i] < at[j];
      assert s[i].hash == txids[at[i]] && s[j].hash == txids[at[j]];
    }
  }

  lemma StillPendingMembers(answers: seq<Status>)
    ensures forall tx :: tx in StillPending(answers) <==> Pending(tx) in answers
  {
    var at := StillPendingExact(answers);
    forall tx | Pending(tx) in answers ensures tx in StillPending(answers) {
      var i :| 0 <= i < |answers| && answers[i] == Pending(tx);
      assert AnsweredPending()(answers[i]);
      var k :| 0 <= k < |at| && at[k] == i;
    }
  }

  lemma {:induction false} DistinctOnce(s: seq<Tx>, x: Tx)
    requires AllDistinct(Hashes(s)) && x in s
    ensures multiset(s)[x] == 1
  {
    var n := |s| - 1;
    var h := Hashes(s);
    assert s == s[..n] + [s[n]] && Hashes(s[..n]) == h[..n];
    if x in s[..n] {
      DistinctOnce(s[..n], x);
      var i :| 0 <= i < n && s[i] == x;
      assert h[i] != h[n];
    }
  }

  /** Reordering keeps elements distinct. */
  lemma DistinctReordered(s: seq<Tx>, r: seq<Tx>)
    requires multiset(r) == multiset(s) && AllDistinct(Hashes(s))
    ensures AllDistinct(Hashes(r))
  {
    forall i, j | 0 <= i < j < |r| ensures r[i].hash != r[j].hash {
      HashesStayApart(s, r, i, j);
    }
  }

  lemma HashesStayApart(s: seq<Tx>, r: seq<Tx>, i: nat, j: nat)
    requires multiset(r) == multiset(s) && AllDistinct(Hashes(s))
    requires i < j < |r|
    ensures r[i].hash != r[j].hash
  {
    assert r[i] in multiset(s) && r[j] in multiset(s);
    var a :| 0 <= a < |s| && s[a] == r[i];
    var b :| 0 <= b < |s| && s[b] == r[j];
    assert Hashes(s)[a] == s[a].hash && Hashes(s)[b] == s[b].hash;
    DistinctOnce(s, r[i]);
    assert r == r[..j] + r[j..] && r[i] in r[..j] && r[j] in r[j..];
    assert multiset(r) == multiset(r[..j]) + multiset(r[j..]);
  }

  lemma FinishResult(txids: seq<nat>, answers: seq<Status>, r: seq<Tx>)
    requires ProperAnswers(txids, answers)
    requires Sorted(r) && multiset(r) == multiset(StillPending(answers))
    ensures forall tx :: tx in r <==> Pending(tx) in answers
    ensures AllDistinct(txids) ==> AllDistinct(Hashes(r))
    ensures InNonceOrder(r)
  {
    hide StillPending, AllDistinct, ProperAnswers;
    StillPendingMembers(answers);
    assert forall tx :: tx in r <==> tx in multiset(StillPending(answers));
    if AllDistinct(txids) {
      StillPendingDistinct(txids, answers);
      DistinctReordered(StillPending(answers), r);
    }
    SortedMeans(r);
  }

  lemma FinishPool(txids: seq<nat>, answers: seq<Status>, before: set<nat>, after: set<nat>)
    requires ProperAnswers(txids, answers) && after == set x | x in before && !Saw(txids, answers, x)
    ensures forall x :: x in after <==>
      x in before && forall i | 0 <= i < |txids| && txids[i] == x :: answers[i].Pending?
  {
  }

  class PendingMempool {
    var pool: set<nat>

    constructor ()
      ensures pool == {}
    {
      pool := {};
    }

    method Add(txid: nat)
      modifies this
      ensures pool == old(pool) + {txid}
    {
      pool := pool + {txid};
    }

    /** The first lock section of GetContent: the transactions to ask for. */
    method Snapshot() returns (txids: seq<nat>)
      ensures forall x :: x in txids <==> x in pool
      ensures forall i, j | 0 <= i < j < |txids| :: txids[i] != txids[j]
    {
      txids := [];
      var todo := pool;
      while todo != {}
        invariant forall x :: x in pool <==> x in txids || x in todo
        invariant forall x | x in txids :: x !in todo
        invariant forall i, j | 0 <= i < j < |txids| :: txids[i] != txids[j]
        decreases todo
      {
        var x :| x in todo;
        todo := todo - {x};
        txids := txids + [x];
      }
    }

    /** The second lock section, with the answers for an earlier snapshot, and the
        result in order; None if a CHECK fails. */
    method Finish(txids: seq<nat>, answers: seq<Status>) returns (r: Option<seq<Tx>>)
      requires |answers| == |txids|
      modifies this
      ensures r.Some? <==> ProperAnswers(txids, answers)
      ensures r.Some? ==> pool == set x | x in old(pool) && !Saw(txids, answers, x)
      ensures r.Some? ==>
        forall x :: x in pool <==> x in old(pool) && forall i | 0 <= i < |txids| && txids[i] == x :: answers[i].Pending?
      ensures r.Some? ==> Sorted(r.value) && multiset(r.value) == multiset(StillPending(answers))
      ensures r.Some? ==> forall tx :: tx in r.value <==> Pending(tx) in answers
      ensures r.Some? && AllDistinct(txids) ==> AllDistinct(Hashes(r.value))
      ensures r.Some? ==> InNonceOrder(r.value)
    {
      hide Sorted, AllDistinct, InNonceOrder;
      var transactions := [];
      for i := 0 to |txids|
        invariant ProperAnswers(txids[..i], answers[..i])
        invariant pool == set x | x in old(pool) && !(exists k | 0 <= k < i :: txids[k] == x && Gone(answers[k]))
        invariant transactions == StillPending(answers[..i])
      {
        var a := answers[i];
        assert answers[..i + 1][..i] == answers[..i] && txids[..i + 1][..i] == txids[..i];
        if a.RpcError? { return None; }
        if a.Unknown? {
          pool := pool - {txids[i]};
        } else if a.Confirmed? {
          if a.hash != txids[i] { return None; }
          pool := pool - {txids[i]};
        } else {
          if a.tx.hash != txids[i] { return None; }
          transactions := transactions + [a.tx];
        }
      }
      assert answers[..|answers|] == answers && txids[..|txids|] == txids;
      var sorted := Sort(transactions);
      FinishResult(txids, answers, sorted);
      FinishPool(txids, answers, old(pool), pool);
      return Some(sorted);
    }
  }

  // ----- Interleavings

  datatype Event = AddTx(x: nat) | Begin(call: nat) | End(call: nat, answers: seq<Status>)

  /** The pool and the snapshots of the calls that are in flight. */
  datatype State = State(pool: set<nat>, flights: map<nat, seq<nat>>)

  ghost predicate Saw(snapshot: seq<nat>, answers: seq<Status>, x: nat) {
    |answers| == |snapshot| && exists i | 0 <= i < |snapshot| :: snapshot[i] == x && Gone(answers[i])
  }

  /** One lock section, as the methods of PendingMempool perform it. */
  ghost predicate Step(s: State, e: Event, s': State) {
    match e
    case AddTx(x) => s' == s.(pool := s.pool + {x})
    case Begin(call) =>
      && call !in s.flights && s'.pool == s.pool
      && call in s'.flights && s'.flights == s.flights[call := s'.flights[call]]
      && (forall x :: x in s'.flights[call] <==> x in s.pool)
    case End(call, answers) =>
      && call in s.flights && ProperAnswers(s.flights[call], answers)
      && s' == State((set x | x in s.pool && !Saw(s.flights[call], answers, x)), s.flights - {call})
  }

  ghost predicate Run(ss: seq<State>, es: seq<Event>) {
    && |ss| == |es| + 1 && ss[0] == State({}, map[])
    && (forall i | 0 <= i < |es| :: Step(ss[i], es[i], ss[i + 1]))
  }

  /** The snapshot of a call in flight was taken from the pool when the call began. */
  lemma {:induction false} FlightBegan(ss: seq<State>, es: seq<Event>, k: nat, call: nat, x: nat) returns (b: nat)
    requires Run(ss, es) && k < |ss| && call in ss[k].flights && x in ss[k].flights[call]
    ensures b < k && es[b] == Begin(call) && x in ss[b].pool
    decreases k
  {
    assert k > 0;
    assert Step(ss[k - 1], es[k - 1], ss[k - 1 + 1]);
    if es[k - 1] == Begin(call) {
      b := k - 1;
    } else {
      b := FlightBegan(ss, es, k - 1, call, x);
    }
  }

  /** A transaction leaves the pool only because of a call in flight that began while
      the transaction was in the pool, and was told that it is unknown or confirmed. */
  lemma {:induction false} LeavesOnlyIfGone(ss: seq<State>, es: seq<Event>, i: nat, j: nat, x: nat)
    returns (b: nat, k: nat)
    requires Run(ss, es) && i < j < |ss| && x in ss[i].pool && x !in ss[j].pool
    ensures b < k && i <= k < j && es[k].End? && es[b] == Begin(es[k].call) && x in ss[b].pool
    ensures es[k].call in ss[k].flights && Saw(ss[k].flights[es[k].call], es[k].answers, x)
    decreases j - i
  {
    assert Step(ss[i], es[i], ss[i + 1]);
    if x in ss[i + 1].pool {
      b, k := LeavesOnlyIfGone(ss, es, i + 1, j, x);
    } else {
      k := i;
      b := FlightBegan(ss, es, i, es[i].call, x);
    }
  }
}
