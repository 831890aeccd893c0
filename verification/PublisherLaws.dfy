/** What the publisher's data is, move by move and message by message. */
module PublisherLaws {
  import opened BlockTree
  import opened Publisher
  import opened Positions

  // ----- Which moves reach which game

  /** A move of a player that addresses the game. */
  ghost predicate Plays(mv: MoveData, g: Game) {
    mv.ns == NsPlayer && mv.value.Object? && mv.value.g.Some? && g in mv.value.g.value
  }

  /** A command by the owner of the game. */
  ghost predicate Commands(mv: MoveData, g: Game) {
    mv.ns == NsGame && mv.name == g && mv.value.Object? && mv.value.cmd.Some?
  }

  /** What was burnt for the game, which is zero if the move does not say. */
  ghost predicate BurntFor(mv: MoveData, g: Game, burnt: Json) {
    (g in mv.burns ==> burnt == mv.burns[g]) && (g !in mv.burns ==> burnt == 0)
  }

  ghost function Playing(g: Game): MoveData -> bool { mv => Plays(mv, g) }

  ghost function Commanding(g: Game): MoveData -> bool { mv => Commands(mv, g) }

  /** The entry of a game for a move that addresses it. */
  ghost predicate MoveEntry(mv: MoveData, g: Game, r: MoveJson) {
    && Plays(mv, g) && r.txid == mv.txid && r.name == mv.name && r.move == mv.value.g.value[g]
    && BurntFor(mv, g, r.burnt)
  }

  ghost predicate AdminEntry(mv: MoveData, g: Game, r: AdminJson) {
    Commands(mv, g) && r.txid == mv.txid && r.cmd == mv.value.cmd.value && BurntFor(mv, g, r.burnt)
  }

  lemma OneMove(g: Game, mv: MoveData)
    ensures g in MovesPerGame(mv) <==> Plays(mv, g)
    ensures Plays(mv, g) ==> MoveEntry(mv, g, MovesPerGame(mv)[g])
    ensures (AdminCommand(mv).Some? && AdminCommand(mv).value.0 == g) <==> Commands(mv, g)
    ensures Commands(mv, g) ==> AdminEntry(mv, g, AdminCommand(mv).value.1)
  {
  }

  /** A game gets one entry for each move of a player that addresses it, in the order of the
      block: with the txid and the name, what the move says for this game, and what was burnt
      for it. */
  lemma {:induction false} MovesForExact(g: Game, moves: seq<MoveData>) returns (at: seq<nat>)
    ensures Picks(at, moves, Playing(g)) && |MovesFor(g, moves)| == |at|
    ensures forall k | 0 <= k < |at| :: at[k] < |moves| && MoveEntry(moves[at[k]], g, MovesFor(g, moves)[k])
    decreases |moves|
  {
    hide Picks, Plays, MovesPerGame, MoveEntry;
    at := [];
    if moves == [] {
      PicksNone(Playing(g));
    } else {
      var n := |moves| - 1;
      at := MovesForExact(g, moves[..n]);
      PicksMore(at, moves, n, Playing(g));
      OneMove(g, moves[n]);
      if Playing(g)(moves[n]) { at := at + [n]; }
    }
  }

  /** And one entry for each command of its owner. */
  lemma {:induction false} AdminForExact(g: Game, moves: seq<MoveData>) returns (at: seq<nat>)
    ensures Picks(at, moves, Commanding(g)) && |AdminFor(g, moves)| == |at|
    ensures forall k | 0 <= k < |at| :: at[k] < |moves| && AdminEntry(moves[at[k]], g, AdminFor(g, moves)[k])
    decreases |moves|
  {
    hide Picks, Commands, AdminCommand, AdminEntry;
    at := [];
    if moves == [] {
      PicksNone(Commanding(g));
    } else {
      var n := |moves| - 1;
      at := AdminForExact(g, moves[..n]);
      PicksMore(at, moves, n, Commanding(g));
      OneMove(g, moves[n]);
      if Commanding(g)(moves[n]) { at := at + [n]; }
    }
  }

  // ----- Sequence numbers

  ghost function OfTopic(topic: Topic): Message -> bool { (m: Message) => m.topic == topic }

  /** The bytes are those of the number k as a 32-bit integer, least significant first. */
  ghost predicate HasNumber(m: Message, k: nat) {
    var b := m.seqBytes;
    && |b| == 4
    && b[0] as int + 256 * b[1] as int + 65536 * b[2] as int + 16777216 * b[3] as int == k % 0x1_0000_0000
  }

  lemma NumberedMeans(out: seq<Message>, i: nat)
    requires Numbered(out) && i < |out|
    ensures HasNumber(out[i], CountTopic(out[..i], out[i].topic))
  {
    DecodeFour(out[i].seqBytes);
  }

  lemma NumberedPrefix(out: seq<Message>, n: nat)
    requires Numbered(out) && n <= |out|
    ensures Numbered(out[..n])
  {
    hide Decode, CountTopic, Wrap;
    assert forall i | 0 <= i < n :: out[..n][..i] == out[..i];
  }

  /** The messages of a topic carry the numbers 0, 1, 2 and so on, modulo 2^32. */
  lemma {:induction false} TopicNumbers(out: seq<Message>, topic: Topic) returns (at: seq<nat>)
    requires Numbered(out)
    ensures Picks(at, out, OfTopic(topic)) && |at| == CountTopic(out, topic)
    ensures forall k | 0 <= k < |at| :: at[k] < |out| && HasNumber(out[at[k]], k)
    decreases |out|
  {
    hide Picks, Numbered, HasNumber;
    at := [];
    if out == [] {
      PicksNone(OfTopic(topic));
    } else {
      var n := |out| - 1;
      NumberedPrefix(out, n);
      at := TopicNumbers(out[..n], topic);
      PicksMore(at, out, n, OfTopic(topic));
      NumberedMeans(out, n);
      if OfTopic(topic)(out[n]) { at := at + [n]; }
    }
  }

  // ----- Tracking

  ghost function For(g: Game): ((Game, bool)) -> bool { (c: (Game, bool)) => c.0 == g }

  /** The history of a game is that of the calls for it. */
  lemma {:induction false} HistoryExact(calls: seq<(Game, bool)>, g: Game) returns (at: seq<nat>)
    ensures Picks(at, calls, For(g)) && |History(calls, g)| == |at|
    ensures forall k | 0 <= k < |at| :: at[k] < |calls| && History(calls, g)[k] == calls[at[k]].1
    decreases |calls|
  {
    hide Picks;
    at := [];
    if calls == [] {
      PicksNone(For(g));
    } else {
      var n := |calls| - 1;
      at := HistoryExact(calls[..n], g);
      PicksMore(at, calls, n, For(g));
      if For(g)(calls[n]) { at := at + [n]; }
    }
  }
}
