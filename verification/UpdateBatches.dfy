/** Nested update batches.  All batches use savepoints of one and the same name. */
module UpdateBatches {

  /** A batch with what happens in its scope, or a single write to the table.  A batch
      that is not committed is reverted when it goes out of scope. */
  datatype Script<!T> = Write(op: T -> T) | Batch(body: seq<Script<T>>, committed: bool)

  /** The writes whose whole chain of enclosing batches commits, in order. */
  function Surviving<T>(s: Script<T>, alive: bool): seq<T -> T> {
    match s
    case Write(op) => if alive then [op] else []
    case Batch(body, committed) => SurvivingAll(body, alive && committed)
  }

  function SurvivingAll<T>(body: seq<Script<T>>, alive: bool): seq<T -> T> {
    if body == [] then [] else Surviving(body[0], alive) + SurvivingAll(body[1..], alive)
  }

  /** The table after a sequence of writes. */
  function Replay<T>(t: T, ops: seq<T -> T>): T
    decreases |ops|
  {
    if ops == [] then t else Replay(ops[0](t), ops[1..])
  }

  lemma {:induction false} ReplayConcat<T>(t: T, a: seq<T -> T>, b: seq<T -> T>)
    ensures Replay(t, a + b) == Replay(Replay(t, a), b)
    decreases |a|
  {
    if a == [] {
      assert a + b == b;
    } else {
      assert (a + b)[1..] == a[1..] + b;
      ReplayConcat(a[0](t), a[1..], b);
    }
  }

  /** The database: the table, and the open savepoints with the table as it was when
      they were set. */
  class Database<T> {
    var table: T
    var savepoints: seq<T>

    constructor (t: T)
      ensures table == t && savepoints == []
    {
      table, savepoints := t, [];
    }

    method Savepoint()
      modifies this
      ensures savepoints == old(savepoints) + [table] && table == old(table)
    {
      savepoints := savepoints + [table];
    }

    /** Goes back to the latest savepoint of the name, which stays open. */
    method RollbackTo()
      requires savepoints != []
      modifies this
      ensures savepoints == old(savepoints) && table == savepoints[|savepoints| - 1]
    {
      table := savepoints[|savepoints| - 1];
    }

    /** Closes the latest savepoint of the name. */
    method Release()
      requires savepoints != []
      modifies this
      ensures savepoints == old(savepoints)[..|old(savepoints)| - 1] && table == old(table)
    {
      savepoints := savepoints[..|savepoints| - 1];
    }

    method Run(s: Script<T>)
      modifies this
      ensures savepoints == old(savepoints) && table == Replay(old(table), Surviving(s, true))
      decreases s, 1
    {
      match s
      case Write(op) =>
        table := op(table);
      case Batch(body, committed) =>
        Savepoint();
        RunAll(body);
        if !committed {
          RollbackTo();
          NothingSurvives(s);
        }
        Release();
    }

    /** Any properly nested use of batches: the table is what exactly those writes make
        of it for which every batch around them was committed; an inner rollback keeps
        what an outer batch wrote before it. */
    method RunAll(body: seq<Script<T>>)
      modifies this
      ensures savepoints == old(savepoints) && table == Replay(old(table), SurvivingAll(body, true))
      decreases body, 0
    {
      if body != [] {
        Run(body[0]);
        RunAll(body[1..]);
        ReplayConcat(old(table), Surviving(body[0], true), SurvivingAll(body[1..], true));
      }
    }
  }

  lemma {:induction false} NothingSurvivesAll<T>(body: seq<Script<T>>)
    ensures SurvivingAll(body, false) == []
  {
    if body != [] {
      NothingSurvives(body[0]);
      NothingSurvivesAll(body[1..]);
    }
  }

  /** What is in a batch that is not committed does not survive. */
  lemma {:induction false} NothingSurvives<T>(s: Script<T>)
    ensures Surviving(s, false) == []
    ensures s.Batch? && !s.committed ==> Surviving(s, true) == []
  {
    if s.Batch? { NothingSurvivesAll(s.body); }
  }

  lemma {:induction false} SurvivingConcat<T>(a: seq<Script<T>>, b: seq<Script<T>>, alive: bool)
    ensures SurvivingAll(a + b, alive) == SurvivingAll(a, alive) + SurvivingAll(b, alive)
    decreases |a|
  {
    if a == [] {
      assert a + b == b;
    } else {
      assert (a + b)[1..] == a[1..] + b;
      SurvivingConcat(a[1..], b, alive);
    }
  }

  /** A write comes before what follows it, a committed batch is as if its body stood in its
      place, and a reverted one as if nothing did. */
  lemma BatchLaws<T>(t: T, op: T -> T, body: seq<Script<T>>, rest: seq<Script<T>>)
    ensures Replay(t, SurvivingAll([], true)) == t
    ensures Replay(t, SurvivingAll([Write(op)] + rest, true)) == Replay(op(t), SurvivingAll(rest, true))
    ensures SurvivingAll([Batch(body, true)] + rest, true) == SurvivingAll(body + rest, true)
    ensures SurvivingAll([Batch(body, false)] + rest, true) == SurvivingAll(rest, true)
  {
    var alone, committed, reverted := [Write(op)], [Batch(body, true)], [Batch(body, false)];
    assert (alone + rest)[1..] == (committed + rest)[1..] == (reverted + rest)[1..] == rest;
    SurvivingConcat(body, rest, true);
    NothingSurvives(Batch(body, false));
    var ops := SurvivingAll(rest, true);
    assert SurvivingAll(alone + rest, true) == [op] + ops && ([op] + ops)[1..] == ops;
  }

  /** Every batch in it is committed. */
  predicate AllCommitted<T>(body: seq<Script<T>>) {
    forall i | 0 <= i < |body| :: body[i].Write? || (body[i].committed && AllCommitted(body[i].body))
  }

  /** The writes in program order, whatever becomes of the batches. */
  function Writes<T>(body: seq<Script<T>>): seq<T -> T> {
    if body == [] then []
    else (if body[0].Write? then [body[0].op] else Writes(body[0].body)) + Writes(body[1..])
  }

  /** If all batches commit, then every write survives, in program order. */
  lemma {:induction false} AllSurvive<T>(body: seq<Script<T>>)
    requires AllCommitted(body)
    ensures SurvivingAll(body, true) == Writes(body)
  {
    if body != [] {
      if body[0].Batch? { AllSurvive(body[0].body); }
      AllSurvive(body[1..]);
    }
  }
}
