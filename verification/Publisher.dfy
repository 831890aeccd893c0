/** The ZMQ publisher: which games are tracked, the sequence numbers of messages, and
    the routing of the moves of a block to the games. */
module Publisher {
  import opened BlockTree

  type Game = nat
  type Json = nat

  // ----- Tracking

  /** Tracks minus untracks in a history of one game. */
  function Balance(h: seq<bool>): int {
    if h == [] then 0 else Balance(h[..|h| - 1]) + (if h[|h| - 1] then 1 else -1)
  }

  /** The depth that TrackGame and UntrackGame keep; untracking a game that is not
      tracked has no effect. */
  function Depth(h: seq<bool>): nat {
    if h == [] then 0
    else
      var d := Depth(h[..|h| - 1]);
      if h[|h| - 1] then d + 1 else if d == 0 then 0 else d - 1
  }

  lemma {:induction false} BalanceSuffix(h: seq<bool>, i: nat)
    requires i < |h|
    ensures Balance(h[i..]) == Balance(h[..|h| - 1][i..]) + (if h[|h| - 1] then 1 else -1)
  {
    assert h[i..][..|h[i..]| - 1] == h[..|h| - 1][i..];
  }

  /** The depth is the largest balance of a suffix of the history. */
  lemma {:induction false} DepthIsMaxSuffix(h: seq<bool>)
    ensures forall i | 0 <= i <= |h| :: Balance(h[i..]) <= Depth(h)
    ensures exists i | 0 <= i <= |h| :: Balance(h[i..]) == Depth(h)
    decreases |h|
  {
    if h == [] {
      assert Balance(h[0..]) == 0;
    } else {
      var h0 := h[..|h| - 1];
      DepthIsMaxSuffix(h0);
      forall i | 0 <= i <= |h| ensures Balance(h[i..]) <= Depth(h) {
        if i < |h| { BalanceSuffix(h, i); }
      }
      if !h[|h| - 1] && Depth(h0) == 0 {
        assert Balance(h[|h|..]) == Depth(h);
      } else {
        var i :| 0 <= i <= |h0| && Balance(h0[i..]) == Depth(h0);
        BalanceSuffix(h, i);
      }
    }
  }

  /** A game is tracked if and only if some suffix of its history has more tracks than
      untracks. */
  lemma TrackedIff(h: seq<bool>)
    ensures Depth(h) > 0 <==> exists i | 0 <= i <= |h| :: Balance(h[i..]) > 0
  {
    DepthIsMaxSuffix(h);
  }

  // ----- Sequence numbers

  newtype byte = x: int | 0 <= x < 256

  /** The number that bytes stand for, least significant byte first. */
  function Decode(b: seq<byte>): int {
    if b == [] then 0 else Decode(b[..|b| - 1]) + Weight(|b| - 1) * b[|b| - 1] as int
  }

  function Weight(i: nat): nat { if i == 0 then 1 else 256 * Weight(i - 1) }

  /** A 32-bit counter. */
  function Wrap(n: nat): (r: nat)
    ensures r < 0x1_0000_0000 && (n - r) % 0x1_0000_0000 == 0
  {
    n % 0x1_0000_0000
  }

  lemma WrapStep(n: nat)
    ensures Wrap(Wrap(n) + 1) == Wrap(n + 1)
  {
  }

  datatype Prefix = BlockAttach | BlockDetach | PendingMove

  /** What a game process subscribes to. */
  datatype Topic = Topic(prefix: Prefix, game: Game)

  datatype Data =
    | BlockJson(block: Block, reqtoken: Option<nat>, moves: seq<MoveJson>, admin: seq<AdminJson>)
    | PendingJson(moves: seq<MoveJson>)

  datatype Message = Message(topic: Topic, data: Data, seqBytes: seq<byte>)

  function CountTopic(out: seq<Message>, topic: Topic): nat {
    if out == [] then 0
    else CountTopic(out[..|out| - 1], topic) + (if out[|out| - 1].topic == topic then 1 else 0)
  }

  /** Every message carries, in four bytes, how many messages of its topic were
      delivered before it, modulo 2^32. */
  ghost predicate Numbered(out: seq<Message>) {
    forall i | 0 <= i < |out| ::
      |out[i].seqBytes| == 4 && Decode(out[i].seqBytes) == Wrap(CountTopic(out[..i], out[i].topic))
  }

  lemma SplitByte(w: nat, n: nat)
    ensures w * n == w * (n % 256) + (256 * w) * (n / 256)
  {
  }

  /** The four bytes of a sequence number. */
  method Encode(n: nat) returns (b: seq<byte>)
    requires n < 0x1_0000_0000
    ensures |b| == 4 && Decode(b) == n
    ensures b[0] as int + 256 * b[1] as int + 65536 * b[2] as int + 16777216 * b[3] as int == n
  {
    var rest: nat := n;
    b := [];
    assert Weight(1) == 256 && Weight(2) == 65536 && Weight(3) == 16777216 && Weight(4) == 0x1_0000_0000;
    for i := 0 to 4
      invariant |b| == i && Decode(b) + Weight(i) * rest == n
      invariant rest < Weight(4 - i)
    {
      var next := b + [(rest % 256) as byte];
      assert next[..i] == b;
      SplitByte(Weight(i), rest);
      assert Weight(4 - i) == 256 * Weight(4 - (i + 1));
      b := next;
      rest := rest / 256;
    }
    DecodeFour(b);
  }

  lemma DecodeFour(b: seq<byte>)
    requires |b| == 4
    ensures Decode(b) == b[0] as int + 256 * b[1] as int + 65536 * b[2] as int + 16777216 * b[3] as int
  {
    assert b[..3][..2] == b[..2] && b[..2][..1] == b[..1] && b[..1][..0] == [];
    assert Weight(0) == 1 && Weight(1) == 256 && Weight(2) == 65536 && Weight(3) == 16777216;
    assert Decode(b[..1]) == b[0] as int && Decode(b[..2]) == Decode(b[..1]) + 256 * b[1] as int;
    assert Decode(b[..3]) == Decode(b[..2]) + 65536 * b[2] as int;
  }

  lemma {:induction false} NumberedMore(out: seq<Message>, m: Message)
    requires Numbered(out) && |m.seqBytes| == 4 && Decode(m.seqBytes) == Wrap(CountTopic(out, m.topic))
    ensures Numbered(out + [m])
    ensures forall topic :: CountTopic(out + [m], topic) == CountTopic(out, topic) + (if topic == m.topic then 1 else 0)
  {
    var all := out + [m];
    assert all[..|out|] == out;
    forall i | 0 <= i < |all|
      ensures |all[i].seqBytes| == 4 && Decode(all[i].seqBytes) == Wrap(CountTopic(all[..i], all[i].topic))
    {
      if i < |out| { assert all[..i] == out[..i]; }
    }
  }

  /** The next sequence number of a topic. */
  function Next(nextSeq: map<Topic, nat>, topic: Topic): nat { if topic in nextSeq then nextSeq[topic] else 0 }

  // ----- Routing

  /** The namespaces of names: games, players, others. */
  datatype Namespace = NsGame | NsPlayer | NsOther

  /** The value of a move after parsing: with its cmd member, and its g member if that
      is an object. */
  datatype Parsed = Invalid | Object(cmd: Option<Json>, g: Option<map<Game, Json>>)

  /** The empty txid. */
  const NO_TXID: nat := 0

  datatype MoveData = MoveData(txid: nat, ns: Namespace, name: nat, value: Parsed, burns: map<Game, Json>)

  datatype MoveJson = MoveJson(txid: nat, name: nat, move: Json, burnt: Json)

  datatype AdminJson = AdminJson(txid: nat, cmd: Json, burnt: Json)

  function Burnt(mv: MoveData, g: Game): Json { if g in mv.burns then mv.burns[g] else 0 }

  /** The per-game data of one move, as PerTxData collects it. */
  function MovesPerGame(mv: MoveData): map<Game, MoveJson> {
    if mv.value.Object? && mv.ns == NsPlayer && mv.value.g.Some? then
      map g | g in mv.value.g.value :: MoveJson(mv.txid, mv.name, mv.value.g.value[g], Burnt(mv, g))
    else map[]
  }

  /** The admin command of one move, with the game it is for. */
  function AdminCommand(mv: MoveData): Option<(Game, AdminJson)> {
    if mv.value.Object? && mv.ns == NsGame && mv.value.cmd.Some? then
      Some((mv.name, AdminJson(mv.txid, mv.value.cmd.value, Burnt(mv, mv.name))))
    else None
  }

  /** The moves of a block for one game alone. */
  function MovesFor(g: Game, moves: seq<MoveData>): seq<MoveJson> {
    if moves == [] then []
    else
      var mv := moves[|moves| - 1];
      MovesFor(g, moves[..|moves| - 1]) + (if g in MovesPerGame(mv) then [MovesPerGame(mv)[g]] else [])
  }

  /** The admin commands of a block for one game alone. */
  function AdminFor(g: Game, moves: seq<MoveData>): seq<AdminJson> {
    if moves == [] then []
    else
      var a := AdminCommand(moves[|moves| - 1]);
      AdminFor(g, moves[..|moves| - 1]) + (if a.Some? && a.value.0 == g then [a.value.1] else [])
  }

  /** Appends the entries of one move to the arrays of the tracked games. */
  method AddMove(per: map<Game, seq<MoveJson>>, entries: map<Game, MoveJson>) returns (r: map<Game, seq<MoveJson>>)
    ensures r.Keys == per.Keys
    ensures forall g | g in per :: r[g] == per[g] + (if g in entries then [entries[g]] else [])
  {
    r := per;
    var todo := entries.Keys;
    while todo != {}
      invariant todo <= entries.Keys && r.Keys == per.Keys
      invariant forall g | g in per :: r[g] == per[g] + (if g in entries && g !in todo then [entries[g]] else [])
      decreases todo
    {
      var g :| g in todo;
      todo := todo - {g};
      if g in r { r := r[g := r[g] + [entries[g]]]; }
    }
  }

  /** Appends an admin command to the array of its game, if that is tracked. */
  function AddAdmin(per: map<Game, seq<AdminJson>>, admin: Option<(Game, AdminJson)>): (r: map<Game, seq<AdminJson>>)
    ensures r.Keys == per.Keys
    ensures forall g | g in per :: r[g] == per[g] + (if admin.Some? && admin.value.0 == g then [admin.value.1] else [])
  {
    if admin.Some? && admin.value.0 in per then per[admin.value.0 := per[admin.value.0] + [admin.value.1]] else per
  }

  lemma ForStep(g: Game, moves: seq<MoveData>, i: nat)
    requires i < |moves|
    ensures var mv := moves[i];
      && MovesFor(g, moves[..i + 1]) ==
           MovesFor(g, moves[..i]) + (if g in MovesPerGame(mv) then [MovesPerGame(mv)[g]] else [])
      && AdminFor(g, moves[..i + 1]) ==
           AdminFor(g, moves[..i]) +
             (if AdminCommand(mv).Some? && AdminCommand(mv).value.0 == g then [AdminCommand(mv).value.1] else [])
  {
    assert moves[..i + 1][..i] == moves[..i];
  }

  /** The single pass over a block: every tracked game gets exactly its own moves and
      admin commands, in the order of the block. */
  method Route(games: set<Game>, moves: seq<MoveData>)
    returns (perMoves: map<Game, seq<MoveJson>>, perAdmin: map<Game, seq<AdminJson>>)
    ensures perMoves.Keys == games && perAdmin.Keys == games
    ensures forall g | g in games :: perMoves[g] == MovesFor(g, moves) && perAdmin[g] == AdminFor(g, moves)
  {
    perMoves := map g | g in games :: [];
    perAdmin := map g | g in games :: [];
    assert moves[..0] == [];
    hide MovesPerGame, AdminCommand;
    for i := 0 to |moves|
      invariant perMoves.Keys == games && perAdmin.Keys == games
      invariant forall g | g in games :: perMoves[g] == MovesFor(g, moves[..i])
      invariant forall g | g in games :: perAdmin[g] == AdminFor(g, moves[..i])
    {
      hide MovesFor, AdminFor, AddAdmin;
      perMoves := AddMove(perMoves, MovesPerGame(moves[i]));
      perAdmin := AddAdmin(perAdmin, AdminCommand(moves[i]));
      forall g | g in games
        ensures perMoves[g] == MovesFor(g, moves[..i + 1]) && perAdmin[g] == AdminFor(g, moves[..i + 1])
      {
        ForStep(g, moves, i);
      }
    }
    assert moves[..|moves|] == moves;
  }

  /** Every game has its own moves. */
  ghost predicate Routed(per: map<Game, seq<MoveJson>>, games: set<Game>, moves: seq<MoveData>) {
    per.Keys == games && forall g | g in games :: per[g] == MovesFor(g, moves)
  }

  lemma RoutedStep(per: map<Game, seq<MoveJson>>, per': map<Game, seq<MoveJson>>, games: set<Game>,
                   moves: seq<MoveData>, i: nat)
    requires i < |moves| && Routed(per, games, moves[..i]) && per'.Keys == per.Keys
    requires var entries := MovesPerGame(moves[i]);
      forall g | g in per :: per'[g] == per[g] + (if g in entries then [entries[g]] else [])
    ensures Routed(per', games, moves[..i + 1])
  {
    hide MovesFor, MovesPerGame;
    forall g | g in games ensures per'[g] == MovesFor(g, moves[..i + 1]) {
      ForStep(g, moves, i);
    }
  }

  /** Adds one more move. */
  method AddRouted(per: map<Game, seq<MoveJson>>, ghost games: set<Game>, moves: seq<MoveData>, i: nat)
    returns (r: map<Game, seq<MoveJson>>)
    requires i < |moves| && Routed(per, games, moves[..i])
    ensures Routed(r, games, moves[..i + 1])
  {
    r := AddMove(per, MovesPerGame(moves[i]));
    RoutedStep(per, r, games, moves, i);
  }

  /** The txid check of SendPendingMoves, which lets everything follow an empty txid. */
  predicate Mixed(moves: seq<MoveData>, i: nat)
    requires 0 < i < |moves|
  {
    moves[i - 1].txid != NO_TXID && moves[i].txid != moves[i - 1].txid
  }

  /** Exactly the games that have moves, with exactly their moves. */
  ghost predicate RoutedPending(r: map<Game, seq<MoveJson>>, games: set<Game>, moves: seq<MoveData>) {
    && r.Keys == (set g | g in games && MovesFor(g, moves) != [])
    && forall g | g in r :: r[g] == MovesFor(g, moves)
  }

  /** The pass over the moves of a pending transaction; only games with moves are
      notified.  None if a CHECK fails. */
  method RoutePending(games: set<Game>, moves: seq<MoveData>) returns (r: Option<map<Game, seq<MoveJson>>>)
    ensures r.None? <==> moves == [] || exists i | 0 < i < |moves| :: Mixed(moves, i)
    ensures r.Some? ==> RoutedPending(r.value, games, moves)
  {
    hide MovesPerGame, MovesFor, Routed, WithMoves, RoutedPending;
    if moves == [] { return None; }
    var per: map<Game, seq<MoveJson>> := map g | g in games :: [];
    StartRouted(per, games, moves);
    var lastTxid := NO_TXID;
    for i := 0 to |moves|
      invariant lastTxid == if i == 0 then NO_TXID else moves[i - 1].txid
      invariant forall k | 0 < k < i :: !Mixed(moves, k)
      invariant Routed(per, games, moves[..i])
    {
      if lastTxid != NO_TXID && moves[i].txid != lastTxid {
        assert Mixed(moves, i);
        return None;
      }
      lastTxid := moves[i].txid;
      per := AddRouted(per, games, moves, i);
    }
    RoutedGames(per, games, moves);
    return Some(WithMoves(per));
  }

  /** The games that have moves. */
  function WithMoves(per: map<Game, seq<MoveJson>>): map<Game, seq<MoveJson>> {
    map g | g in per && per[g] != [] :: per[g]
  }

  lemma StartRouted(per: map<Game, seq<MoveJson>>, games: set<Game>, moves: seq<MoveData>)
    requires per.Keys == games && forall g | g in games :: per[g] == []
    ensures Routed(per, games, moves[..0])
  {
  }

  lemma RoutedGames(per: map<Game, seq<MoveJson>>, games: set<Game>, moves: seq<MoveData>)
    requires Routed(per, games, moves[..|moves|])
    ensures RoutedPending(WithMoves(per), games, moves)
  {
    hide MovesFor;
    assert moves[..|moves|] == moves;
  }

  /** The history of tracking calls, for one game. */
  function History(calls: seq<(Game, bool)>, g: Game): seq<bool> {
    if calls == [] then []
    else
      var c := calls[|calls| - 1];
      History(calls[..|calls| - 1], g) + (if c.0 == g then [c.1] else [])
  }

  /** Messages with the given data for games, in the order of the games. */
  ghost predicate Delivers(msgs: seq<Message>, prefix: Prefix, datas: map<Game, Data>) {
    && (forall m | m in msgs :: m.topic.prefix == prefix && m.topic.game in datas && m.data == datas[m.topic.game])
    && (forall i, j | 0 <= i < j < |msgs| :: msgs[i].topic.game < msgs[j].topic.game)
  }

  /** Every game got its message. */
  ghost predicate Reached(msgs: seq<Message>, games: set<Game>) {
    forall g | g in games :: exists m | m in msgs :: m.topic.game == g
  }

  /** What the games are told about a block, and about a pending transaction. */
  function BlockDatas(games: set<Game>, blk: Block, moves: seq<MoveData>, reqtoken: Option<nat>): (r: map<Game, Data>)
    ensures r.Keys == games && |r| == |games|
  {
    var r := map g | g in games :: BlockJson(blk, reqtoken, MovesFor(g, moves), AdminFor(g, moves));
    assert r.Keys == games && |r| == |r.Keys|;
    r
  }

  function PendingDatas(games: set<Game>, moves: seq<MoveData>): map<Game, Data> {
    map g | g in games && MovesFor(g, moves) != [] :: PendingJson(MovesFor(g, moves))
  }

  /** The keys of a map, in order. */
  ghost predicate Ordered(order: seq<Game>, games: set<Game>) {
    && (forall g :: g in order <==> g in games)
    && (forall i, j | 0 <= i < j < |order| :: order[i] < order[j])
  }

  /** One message per game of a part of the order. */
  ghost predicate Matched(msgs: seq<Message>, prefix: Prefix, datas: map<Game, Data>, order: seq<Game>) {
    |msgs| <= |order| && forall i | 0 <= i < |msgs| ::
      msgs[i].topic == Topic(prefix, order[i]) && order[i] in datas && msgs[i].data == datas[order[i]]
  }

  lemma NoneMatched(prefix: Prefix, datas: map<Game, Data>, order: seq<Game>)
    ensures Matched([], prefix, datas, order)
  {
  }

  lemma MatchedMore(msgs: seq<Message>, m: Message, prefix: Prefix, datas: map<Game, Data>, order: seq<Game>)
    requires Matched(msgs, prefix, datas, order) && |msgs| < |order| && order[|msgs|] in datas
    requires m.topic == Topic(prefix, order[|msgs|]) && m.data == datas[order[|msgs|]]
    ensures Matched(msgs + [m], prefix, datas, order)
  {
  }

  lemma MatchedDelivers(msgs: seq<Message>, prefix: Prefix, datas: map<Game, Data>, order: seq<Game>)
    requires Ordered(order, datas.Keys) && Matched(msgs, prefix, datas, order)
    ensures Delivers(msgs, prefix, datas)
    ensures |msgs| == |order| ==> Reached(msgs, datas.Keys)
  {
  }

  datatype Outcome = AllSent | SendThrew | SendAborted

  class ZmqPub {
    /** The games that are tracked, by reference count. */
    var games: map<Game, nat>
    var nextSeq: map<Topic, nat>
    /** All messages that were delivered. */
    var out: seq<Message>
    ghost var calls: seq<(Game, bool)>

    ghost predicate Valid()
      reads this
    {
      Tracking() && Sequencing()
    }

    /** Every count is what the history of calls makes of it. */
    ghost predicate Tracking()
      reads this`games, this`calls
    {
      forall g :: (if g in games then games[g] else 0) == Depth(History(calls, g)) && (g in games ==> games[g] > 0)
    }

    ghost predicate Sequencing()
      reads this`nextSeq, this`out
    {
      Numbered(out) && forall topic :: Next(nextSeq, topic) == Wrap(CountTopic(out, topic))
    }

    constructor ()
      ensures Valid() && calls == [] && out == []
    {
      games, calls, nextSeq, out := map[], [], map[], [];
    }

    method TrackGame(g: Game)
      requires Valid()
      modifies this`games, this`calls
      ensures Valid() && calls == old(calls) + [(g, true)]
    {
      CallStep(calls, g, true);
      calls := calls + [(g, true)];
      games := games[g := if g in games then games[g] + 1 else 1];
    }

    method UntrackGame(g: Game)
      requires Valid()
      modifies this`games, this`calls
      ensures Valid() && calls == old(calls) + [(g, false)]
    {
      CallStep(calls, g, false);
      calls := calls + [(g, false)];
      if g in games {
        if games[g] == 1 { games := games - {g}; } else { games := games[g := games[g] - 1]; }
      }
    }

    /** Sends a message; if the socket refuses it, the sequence number is kept. */
    method SendMessage(topic: Topic, data: Data, accepted: bool)
      requires Sequencing()
      modifies this`nextSeq, this`out
      ensures Sequencing()
      ensures !accepted ==> out == old(out)
      ensures accepted ==> exists bytes :: out == old(out) + [Message(topic, data, bytes)]
    {
      hide Wrap, CountTopic, Numbered, Decode;
      assert Next(nextSeq, topic) == Wrap(CountTopic(out, topic));
      if topic !in nextSeq { nextSeq := nextSeq[topic := 0]; }
      var bytes := Encode(nextSeq[topic]);
      if !accepted { return; }
      var m := Message(topic, data, bytes);
      WrapStep(CountTopic(out, topic));
      NumberedMore(out, m);
      nextSeq := nextSeq[topic := Wrap(nextSeq[topic] + 1)];
      forall x ensures Next(nextSeq, x) == Wrap(CountTopic(out + [m], x)) {
      }
      out := out + [m];
    }

    /** Sends one message per game.  The socket takes the first so many messages and
        refuses the next, which ends the loop with an exception. */
    method SendAll(prefix: Prefix, datas: map<Game, Data>, accepts: nat) returns (ok: bool)
      requires Sequencing()
      modifies this`nextSeq, this`out
      ensures Sequencing()
      ensures old(out) <= out && Delivers(out[|old(out)|..], prefix, datas)
      ensures |out| == |old(out)| + Min(accepts, |datas|)
      ensures ok <==> |datas| <= accepts
      ensures ok ==> Reached(out[|old(out)|..], datas.Keys)
    {
      hide Sequencing, Delivers, Reached, Ordered, Matched;
      var order := InOrder(datas.Keys);
      ghost var added: seq<Message> := [];
      NoneMatched(prefix, datas, order);
      for i := 0 to |order|
        invariant Sequencing() && out == old(out) + added && |added| == i <= accepts
        invariant Matched(added, prefix, datas, order)
      {
        OrderedHas(order, datas.Keys, i);
        SendMessage(Topic(prefix, order[i]), datas[order[i]], i < accepts);
        if i == accepts {
          MatchedDelivers(added, prefix, datas, order);
          assert out[|old(out)|..] == added;
          return false;
        }
        ghost var m := out[|out| - 1];
        MatchedMore(added, m, prefix, datas, order);
        added := added + [m];
      }
      MatchedDelivers(added, prefix, datas, order);
      assert out[|old(out)|..] == added;
      return true;
    }

    /** Tells every tracked game about a block, with exactly its own moves and admin
        commands in the order of the block. */
    method SendBlock(prefix: Prefix, blk: Block, moves: seq<MoveData>, reqtoken: Option<nat>, accepts: nat)
      returns (ok: bool)
      requires Valid()
      modifies this`nextSeq, this`out
      ensures Valid()
      ensures old(out) <= out && |out| == |old(out)| + Min(accepts, |games|)
      ensures Delivers(out[|old(out)|..], prefix, BlockDatas(games.Keys, blk, moves, reqtoken))
      ensures forall m | m in out[|old(out)|..] ::
        var g := m.topic.game;
        && m.topic.prefix == prefix && g in games
        && m.data == BlockJson(blk, reqtoken, MovesFor(g, moves), AdminFor(g, moves))
      ensures ok <==> |games| <= accepts
      ensures ok ==> Reached(out[|old(out)|..], games.Keys)
    {
      hide Sequencing, Tracking, Delivers, Reached, MovesFor, AdminFor;
      var perMoves, perAdmin := Route(games.Keys, moves);
      var datas := map g | g in games :: BlockJson(blk, reqtoken, perMoves[g], perAdmin[g]);
      assert datas == BlockDatas(games.Keys, blk, moves, reqtoken);
      hide BlockDatas;
      ok := SendAll(prefix, datas, accepts);
      DeliversEach(out[|old(out)|..], prefix, datas);
    }

    /** Tells the tracked games with moves about a pending transaction. */
    method SendPendingMoves(moves: seq<MoveData>, accepts: nat) returns (r: Outcome)
      requires Valid()
      modifies this`nextSeq, this`out
      ensures Valid() && old(out) <= out
      ensures r.SendAborted? <==> moves == [] || exists i | 0 < i < |moves| :: Mixed(moves, i)
      ensures r.SendAborted? ==> out == old(out)
      ensures Delivers(out[|old(out)|..], PendingMove, PendingDatas(games.Keys, moves))
      ensures forall m | m in out[|old(out)|..] ::
        var mine := MovesFor(m.topic.game, moves);
        m.topic.prefix == PendingMove && m.topic.game in games && mine != [] && m.data == PendingJson(mine)
      ensures r.AllSent? ==>
        forall g | g in games && MovesFor(g, moves) != [] :: exists m | m in out[|old(out)|..] :: m.topic.game == g
      ensures r.SendThrew? ==> |out| == |old(out)| + accepts
    {
      hide Sequencing, Tracking, Reached, MovesFor, Mixed;
      var per := RoutePending(games.Keys, moves);
      if per.None? { return SendAborted; }
      var datas := map g | g in per.value :: PendingJson(per.value[g]);
      assert datas == PendingDatas(games.Keys, moves);
      hide PendingDatas, Delivers;
      var ok := SendAll(PendingMove, datas, accepts);
      PendingEach(out[|old(out)|..], games.Keys, moves);
      return if ok then AllSent else SendThrew;
    }
  }

  lemma DeliversEach(msgs: seq<Message>, prefix: Prefix, datas: map<Game, Data>)
    requires Delivers(msgs, prefix, datas)
    ensures forall m | m in msgs ::
      m.topic.prefix == prefix && m.topic.game in datas && m.data == datas[m.topic.game]
  {
  }

  lemma PendingEach(msgs: seq<Message>, games: set<Game>, moves: seq<MoveData>)
    requires Delivers(msgs, PendingMove, PendingDatas(games, moves))
    ensures forall m | m in msgs ::
      var mine := MovesFor(m.topic.game, moves);
      m.topic.prefix == PendingMove && m.topic.game in games && mine != [] && m.data == PendingJson(mine)
    ensures Reached(msgs, PendingDatas(games, moves).Keys) ==>
      forall g | g in games && MovesFor(g, moves) != [] :: exists m | m in msgs :: m.topic.game == g
  {
    hide MovesFor;
    var datas := PendingDatas(games, moves);
    if Reached(msgs, datas.Keys) {
      forall g | g in games && MovesFor(g, moves) != [] ensures exists m | m in msgs :: m.topic.game == g {
        assert g in datas.Keys;
      }
    }
  }

  lemma OrderedHas(order: seq<Game>, games: set<Game>, i: nat)
    requires Ordered(order, games) && i < |order|
    ensures order[i] in games
  {
  }

  /** The games in the order in which a map has them. */
  method InOrder(games: set<Game>) returns (order: seq<Game>)
    ensures Ordered(order, games) && |order| == |games|
  {
    order := [];
    var todo := games;
    while todo != {}
      invariant todo <= games && Ordered(order, games - todo) && |order| + |todo| == |games|
      invariant forall g, x | g in order && x in todo :: g < x
      decreases todo
    {
      var g := PickFirst(todo);
      todo := todo - {g};
      assert forall i | 0 <= i < |order| :: order[i] in order;
      order := order + [g];
    }
    assert games - todo == games;
  }

  method PickFirst(s: set<Game>) returns (k: Game)
    requires s != {}
    ensures k in s && forall x | x in s :: k <= x
  {
    k :| k in s;
    var todo := s - {k};
    while todo != {}
      invariant k in s && todo <= s && forall x | x in s && x !in todo :: k <= x
      decreases todo
    {
      var y :| y in todo;
      todo := todo - {y};
      if y < k { k := y; }
    }
  }

  lemma CallStep(calls: seq<(Game, bool)>, g: Game, track: bool)
    ensures var all := calls + [(g, track)];
      forall x :: Depth(History(all, x)) ==
        var d := Depth(History(calls, x));
        if x != g then d else if track then d + 1 else if d == 0 then 0 else d - 1
  {
    var all := calls + [(g, track)];
    assert all[..|all| - 1] == calls;
    forall x ensures History(all, x) == History(calls, x) + (if x == g then [track] else []) {
    }
    var h := History(calls, g);
    assert (h + [track])[..|h|] == h;
    assert forall x | x != g :: History(calls, x) + [] == History(calls, x);
  }
}
