// Mode "all" of indexer/indexer.go: the stream's miner inserts into the database while the
// check's pipeline commits to it.

module Together {
  import opened Chain
  import opened Wrappers
  import opened Pipeline
  import opened PipelineSafety
  import opened PipelineTheorems

  // The height that the stream's miner holds: docs(h)[..pos] are inserted.
  datatype Sync = Sync(h: Height, pos: nat)
  datatype Both = Both(bulk: State, sync: Option<Sync>)

  datatype Move =
    | Bulk(step: Step)
    | Take(h: Height)   // the stream sends a height to its miner
    | InsertDoc
    | InsertBlock       // last, as for the pipeline

  predicate Possible(c: Config, b: Both, move: Move) {
    match move
    case Bulk(step) => Enabled(c, b.bulk, step)
    case Take(_) => b.sync.None?
    case InsertDoc => b.sync.Some? && b.sync.value.pos < |c.docs(b.sync.value.h)|
    case InsertBlock => b.sync.Some? && b.sync.value.pos == |c.docs(b.sync.value.h)|
  }

  function Make(c: Config, b: Both, move: Move): Both
    requires Possible(c, b, move)
  {
    match move
    case Bulk(step) => b.(bulk := Apply(c, b.bulk, step))
    case Take(h) => b.(sync := Some(Sync(h, 0)))
    case InsertDoc =>
      var h, pos, db := b.sync.value.h, b.sync.value.pos, b.bulk.db;
      Both(b.bulk.(db := db.(docs := db.docs + {c.docs(h)[pos]})), Some(Sync(h, pos + 1)))
    case InsertBlock =>
      var db := b.bulk.db;
      Both(b.bulk.(db := db.(blocks := db.blocks + {b.sync.value.h})), None)
  }

  ghost predicate Goes(c: Config, b: Both, moves: seq<Move>)
    decreases |moves|
  {
    moves == [] || (Possible(c, b, moves[0]) && Goes(c, Make(c, b, moves[0]), moves[1..]))
  }

  ghost function Left(c: Config, b: Both, moves: seq<Move>): Both
    requires Goes(c, b, moves)
    decreases |moves|
  {
    if moves == [] then b else Left(c, Make(c, b, moves[0]), moves[1..])
  }

  // What the stream's miner has inserted is there.
  ghost predicate Inserted(c: Config, b: Both) {
    b.sync.Some? ==>
      && b.sync.value.pos <= |c.docs(b.sync.value.h)|
      && forall d | d in c.docs(b.sync.value.h)[..b.sync.value.pos] :: d in b.bulk.db.docs
  }

  // The pipeline's invariant does not mind a database that others add to.
  lemma SafeGrows(c: Config, s: State, db: Db)
    requires Safe(c, s) && s.db.blocks <= db.blocks && s.db.docs <= db.docs && Consistent(c, db)
    ensures Safe(c, s.(db := db))
  {
    var s' := s.(db := db);
    assert forall m, d :: Dealt(c, s', m, d) <==> Dealt(c, s, m, d);
    assert forall i :: Flushed(s', i) <==> Flushed(s, i);
    assert forall i, d :: HasSource(c, s', i, d) <==> HasSource(c, s, i, d);
    assert forall m, h :: Holds(s', m, h) <==> Holds(s, m, h);
  }

  lemma MoveSafe(c: Config, b: Both, move: Move)
    requires ValidConfig(c) && Safe(c, b.bulk) && Inserted(c, b) && Possible(c, b, move)
    ensures Safe(c, Make(c, b, move).bulk) && Inserted(c, Make(c, b, move))
  {
    var b' := Make(c, b, move);
    match move
    case Bulk(step) =>
      StepSafe(c, b.bulk, step);
      assert b.bulk.db.docs <= b'.bulk.db.docs;
    case Take(_) =>
    case InsertDoc =>
      var docs, pos := c.docs(b.sync.value.h), b.sync.value.pos;
      assert docs[..pos + 1] == docs[..pos] + [docs[pos]];
      SafeGrows(c, b.bulk, b'.bulk.db);
    case InsertBlock =>
      var docs := c.docs(b.sync.value.h);
      assert docs[..|docs|] == docs;
      SafeGrows(c, b.bulk, b'.bulk.db);
  }

  lemma {:induction false} MovesSafe(c: Config, b: Both, moves: seq<Move>)
    requires ValidConfig(c) && Safe(c, b.bulk) && Inserted(c, b) && Goes(c, b, moves)
    ensures Safe(c, Left(c, b, moves).bulk)
    decreases |moves|
  {
    if moves != [] {
      MoveSafe(c, b, moves[0]);
      MovesSafe(c, Make(c, b, moves[0]), moves[1..]);
    }
  }

  // Crash consistency of both together: while the chain does not rewind, wherever stream
  // and check are stopped, the database meets what the next check starts from.
  lemma BothCrashConsistent(c: Config, db0: Db, ticks: nat, moves: seq<Move>)
    requires ValidConfig(c) && Consistent(c, db0) && Goes(c, Both(Init(c, db0, ticks), None), moves)
    ensures Consistent(c, Left(c, Both(Init(c, db0, ticks), None), moves).bulk.db)
  {
    InitSafe(c, db0, ticks);
    MovesSafe(c, Both(Init(c, db0, ticks), None), moves);
  }

  // Nothing disappears.
  lemma {:induction false} MovesGrow(c: Config, b: Both, moves: seq<Move>)
    requires Goes(c, b, moves)
    ensures b.bulk.db.blocks <= Left(c, b, moves).bulk.db.blocks && b.bulk.db.docs <= Left(c, b, moves).bulk.db.docs
    decreases |moves|
  {
    if moves != [] { MovesGrow(c, Make(c, b, moves[0]), moves[1..]); }
  }

  lemma {:induction false} MovesInserted(c: Config, b: Both, moves: seq<Move>)
    requires ValidConfig(c) && Safe(c, b.bulk) && Inserted(c, b) && Goes(c, b, moves)
    ensures Inserted(c, Left(c, b, moves))
    decreases |moves|
  {
    if moves != [] {
      MoveSafe(c, b, moves[0]);
      MovesInserted(c, Make(c, b, moves[0]), moves[1..]);
    }
  }

  // A height that the stream's miner has finished is in the database for good, with all its
  // documents, account tokens included.
  lemma StreamIndexes(c: Config, db0: Db, ticks: nat, before: seq<Move>, after: seq<Move>)
    requires ValidConfig(c) && Consistent(c, db0) && Goes(c, Both(Init(c, db0, ticks), None), before)
    requires Possible(c, Left(c, Both(Init(c, db0, ticks), None), before), InsertBlock)
    requires Goes(c, Make(c, Left(c, Both(Init(c, db0, ticks), None), before), InsertBlock), after)
    ensures var b := Left(c, Both(Init(c, db0, ticks), None), before);
            var h, db := b.sync.value.h, Left(c, Make(c, b, InsertBlock), after).bulk.db;
            h in db.blocks && forall d | d in c.docs(h) :: d in db.docs
  {
    var b0 := Both(Init(c, db0, ticks), None);
    var b := Left(c, b0, before);
    InitSafe(c, db0, ticks);
    MovesInserted(c, b0, before);
    assert c.docs(b.sync.value.h)[..b.sync.value.pos] == c.docs(b.sync.value.h);
    MovesGrow(c, Make(c, b, InsertBlock), after);
  }
}
