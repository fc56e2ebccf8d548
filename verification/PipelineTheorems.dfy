// What holds of the database in every reachable state of a bulk run, and what a
// complete run has written.

module PipelineTheorems {
  import opened Chain
  import opened Pipeline
  import opened PipelineSafety
  import opened PipelineAccounts

  // ---------------------------------------------------------------- every reachable state

  lemma StepSafe(c: Config, s: State, step: Step)
    requires ValidConfig(c) && Safe(c, s) && Enabled(c, s, step)
    ensures Safe(c, Apply(c, s, step))
  {
    BarrierKept(c, s, step);
    OrderedKept(c, s, step);
    SentKept(c, s, step);
    BackedKept(c, s, step);
    SourcedKept(c, s, step);
    ConsistentKept(c, s, step);
    TrackedKept(c, s, step);
  }

  lemma {:induction false} RunSafe(c: Config, s: State, steps: seq<Step>)
    requires ValidConfig(c) && Safe(c, s) && Runs(c, s, steps)
    ensures Safe(c, After(c, s, steps))
    decreases |steps|
  {
    if steps != [] {
      StepSafe(c, s, steps[0]);
      RunSafe(c, Apply(c, s, steps[0]), steps[1..]);
    }
  }

  lemma {:induction false} RunClaims(c: Config, s: State, steps: seq<Step>)
    requires ValidConfig(c) && Safe(c, s) && Claims(c, s) && Runs(c, s, steps)
    ensures Claims(c, After(c, s, steps))
    decreases |steps|
  {
    if steps != [] {
      StepSafe(c, s, steps[0]);
      CacheBackedKept(c, s, steps[0]);
      CacheFilledKept(c, s, steps[0]);
      CacheCompleteKept(c, s, steps[0]);
      RunClaims(c, Apply(c, s, steps[0]), steps[1..]);
    }
  }

  lemma {:induction false} RunFresh(c: Config, db0: Db, s: State, steps: seq<Step>)
    requires ValidConfig(c) && Safe(c, s) && Fresh(c, db0, s) && Runs(c, s, steps)
    ensures Fresh(c, db0, After(c, s, steps))
    decreases |steps|
  {
    if steps != [] {
      StepSafe(c, s, steps[0]);
      FreshKept(c, db0, s, steps[0]);
      RunFresh(c, db0, Apply(c, s, steps[0]), steps[1..]);
    }
  }

  lemma {:induction false} RunWithin(c: Config, db0: Db, s: State, steps: seq<Step>)
    requires ValidConfig(c) && Safe(c, s) && Within(c, db0, s) && Runs(c, s, steps)
    ensures Within(c, db0, After(c, s, steps))
    decreases |steps|
  {
    if steps != [] {
      StepSafe(c, s, steps[0]);
      WithinKept(c, db0, s, steps[0]);
      RunWithin(c, db0, Apply(c, s, steps[0]), steps[1..]);
    }
  }

  // Crash consistency: whatever the interleaving of miners, size flushes, timer commits
  // and shutdown, and wherever the process dies, a block in the database has all its
  // tx, event, contract and token_transfer documents in the database.
  lemma CrashConsistent(c: Config, db0: Db, ticks: nat, steps: seq<Step>)
    requires ValidConfig(c) && Consistent(c, db0) && Runs(c, Init(c, db0, ticks), steps)
    ensures Consistent(c, After(c, Init(c, db0, ticks), steps).db)
  {
    InitSafe(c, db0, ticks);
    RunSafe(c, Init(c, db0, ticks), steps);
  }

  // A run keeps what the database had and adds only documents of the dispatched heights.
  lemma OnlyJobsWritten(c: Config, db0: Db, ticks: nat, steps: seq<Step>)
    requires ValidConfig(c) && Consistent(c, db0) && Runs(c, Init(c, db0, ticks), steps)
    ensures Within(c, db0, After(c, Init(c, db0, ticks), steps))
  {
    InitSafe(c, db0, ticks);
    RunWithin(c, db0, Init(c, db0, ticks), steps);
  }

  // ---------------------------------------------------------------- shutdown

  // The block writer has received StopBulk.
  predicate Stopped(s: State) {
    s.dispatcher.ClosingDocs? || s.dispatcher.Done?
  }

  predicate AboutToStop(s: State) {
    s.dispatcher.Closing? && s.block.phase.Receiving?
  }

  ghost predicate Complete(c: Config, db: Db) {
    forall k | 0 <= k < |c.jobs| ::
      c.jobs[k].height in db.blocks && forall d | d in c.docs(c.jobs[k].height) :: d in db.docs
  }

  lemma NothingBuffered(c: Config, s: State)
    requires Safe(c, s) && (Stopped(s) || AboutToStop(s))
    ensures s.block.buf == [] && s.block.held.None?
    ensures forall i | 0 <= i < 5 :: s.deps[i].buf == [] && !s.deps[i].phase.Flushing?
  {
    forall i | 0 <= i < 5
      ensures s.deps[i].buf == [] && !s.deps[i].phase.Flushing?
    {
      assert s.deps[i].buf != [] ==> Buffered(s.deps[i], s.deps[i].buf[0]);
      assert s.deps[i].phase.Flushing? ==> Buffered(s.deps[i], s.deps[i].phase.held);
      assert forall d :: Buffered(s.deps[i], d) ==> HasSource(c, s, i, d);
    }
  }

  // Shutdown leaves nothing behind: from the moment the block writer can receive
  // StopBulk every buffer is empty, and every dispatched height has its block and all
  // its documents in the database. The forced Commit need not have flushed anything:
  // with an empty block buffer it returns at once, and nothing was waiting.
  lemma ShutdownLeavesNothing(c: Config, db0: Db, ticks: nat, steps: seq<Step>)
    requires ValidConfig(c) && Consistent(c, db0) && Runs(c, Init(c, db0, ticks), steps)
    ensures var s := After(c, Init(c, db0, ticks), steps);
            Stopped(s) || AboutToStop(s) ==>
              && s.block.buf == [] && s.block.held.None?
              && |s.deps| == 5
              && (forall i | 0 <= i < 5 :: s.deps[i].buf == [] && !s.deps[i].phase.Flushing?)
              && Complete(c, s.db)
  {
    var s0 := Init(c, db0, ticks);
    var s := After(c, s0, steps);
    InitSafe(c, db0, ticks);
    RunSafe(c, s0, steps);
    RunClaims(c, s0, steps);
    if Stopped(s) || AboutToStop(s) {
      NothingBuffered(c, s);
      forall k | 0 <= k < |c.jobs|
        ensures c.jobs[k].height in s.db.blocks
        ensures forall d | d in c.docs(c.jobs[k].height) :: d in s.db.docs
      {
        assert !SomeoneHolds(s, c.jobs[k].height);
        assert AllCached(c, s, c.jobs[k].height);
        assert forall d | d in s.cache :: !SomeoneClaims(c, s, d);
      }
    }
  }

  // ---------------------------------------------------------------- account tokens

  // An account-token document of a committed block is in the database, or some
  // uncommitted height of the range yields it too.
  ghost predicate Owed(c: Config, db: Db, range: set<Height>, d: Doc) {
    exists h :: h in range && h !in db.blocks && d in c.docs(h)
  }

  ghost predicate Recoverable(c: Config, db: Db, range: set<Height>) {
    forall h, d | h in db.blocks && d in c.docs(h) && d.kind == ACCTOKENS ::
      d in db.docs || Owed(c, db, range, d)
  }

  ghost predicate JobsIn(c: Config, range: set<Height>) {
    forall h | IsJob(c, h) :: h in range
  }

  // d is owed by a height that is not dispatched.
  ghost predicate OwedElsewhere(c: Config, db: Db, range: set<Height>, d: Doc) {
    exists h :: h in range && h !in db.blocks && !IsJob(c, h) && d in c.docs(h)
  }

  // Whatever a dispatched height that is already committed yields is in the database, or
  // is owed by a height that is not dispatched.
  ghost predicate Secured(c: Config, db: Db, range: set<Height>) {
    forall h, d | IsJob(c, h) && h in db.blocks && d in c.docs(h) && d.kind == ACCTOKENS ::
      d in db.docs || OwedElsewhere(c, db, range, d)
  }

  // What is owed by a height that is not dispatched stays owed.
  lemma ElsewhereStays(c: Config, db0: Db, s: State, range: set<Height>, d: Doc)
    requires Within(c, db0, s) && OwedElsewhere(c, db0, range, d)
    ensures Owed(c, s.db, range, d)
  {
    var h :| h in range && h !in db0.blocks && !IsJob(c, h) && d in c.docs(h);
    assert h !in s.db.blocks;
  }

  // A height in a miner's hands owes what it yields, or it was committed before the run.
  lemma HolderOwes(c: Config, db0: Db, s: State, range: set<Height>, m: nat, d: Doc)
    requires Fresh(c, db0, s) && Within(c, db0, s) && JobsIn(c, range) && Secured(c, db0, range)
    requires m < |s.miners| && Busy(s.miners[m]) && d in c.docs(s.miners[m].h)
    requires d.kind == ACCTOKENS && d !in s.db.docs
    ensures Owed(c, s.db, range, d)
  {
    var h := s.miners[m].h;
    assert Holds(s, m, h);
    assert SomeoneHolds(s, h);
    if h in db0.blocks { ElsewhereStays(c, db0, s, range, d); }
  }

  // A claimed document that has not reached the database is owed: by the height whose
  // miner claimed it, as that block is written after the document, or elsewhere.
  lemma ClaimOwed(c: Config, db0: Db, s: State, range: set<Height>, d: Doc)
    requires Safe(c, s) && Claims(c, s) && Fresh(c, db0, s) && Within(c, db0, s) && JobsIn(c, range)
    requires Secured(c, db0, range)
    requires d in s.cache && d !in s.db.docs
    ensures Owed(c, s.db, range, d)
  {
    if m: nat :| Claiming(c, s, m, d) {
      HolderOwes(c, db0, s, range, m, d);
    } else {
      assert HasSource(c, s, ACCTOKENS, d);
      if m: nat :| Dealt(c, s, m, d) {
        HolderOwes(c, db0, s, range, m, d);
      } else {
        var h :| InHand(s.block, h) && d in c.docs(h);
        if h in db0.blocks { ElsewhereStays(c, db0, s, range, d); }
      }
    }
  }

  // Deduplicated account tokens stay recoverable: from a recoverable database, every
  // reachable database of a run over heights of the range is recoverable, if the account
  // tokens of those heights that are committed already are secured.
  lemma AccountTokensRecoverable(c: Config, db0: Db, ticks: nat, steps: seq<Step>, range: set<Height>)
    requires ValidConfig(c) && Consistent(c, db0) && Recoverable(c, db0, range)
    requires SingleJobs(c) && JobsIn(c, range) && Secured(c, db0, range)
    requires Runs(c, Init(c, db0, ticks), steps)
    ensures Recoverable(c, After(c, Init(c, db0, ticks), steps).db, range)
  {
    var s0 := Init(c, db0, ticks);
    var s := After(c, s0, steps);
    InitSafe(c, db0, ticks);
    RunSafe(c, s0, steps);
    RunClaims(c, s0, steps);
    RunFresh(c, db0, s0, steps);
    RunWithin(c, db0, s0, steps);
    forall h, d | h in s.db.blocks && d in c.docs(h) && d.kind == ACCTOKENS
      ensures d in s.db.docs || Owed(c, s.db, range, d)
    {
      StillOwed(c, db0, s, range, h, d);
    }
  }

  lemma StillOwed(c: Config, db0: Db, s: State, range: set<Height>, h: Height, d: Doc)
    requires Safe(c, s) && Claims(c, s) && Fresh(c, db0, s) && Within(c, db0, s) && JobsIn(c, range)
    requires Recoverable(c, db0, range) && Secured(c, db0, range)
    requires h in s.db.blocks && d in c.docs(h) && d.kind == ACCTOKENS
    ensures d in s.db.docs || Owed(c, s.db, range, d)
  {
    if h !in db0.blocks {
      NewlyCommitted(c, db0, s, range, h, d);
    } else if d !in db0.docs {
      var g :| g in range && g !in db0.blocks && d in c.docs(g);
      if g in s.db.blocks { NewlyCommitted(c, db0, s, range, g, d); }
    }
  }

  lemma NewlyCommitted(c: Config, db0: Db, s: State, range: set<Height>, h: Height, d: Doc)
    requires Safe(c, s) && Claims(c, s) && Fresh(c, db0, s) && Within(c, db0, s) && JobsIn(c, range)
    requires Secured(c, db0, range)
    requires h in s.db.blocks && h !in db0.blocks && d in c.docs(h) && d.kind == ACCTOKENS
    ensures d in s.db.docs || Owed(c, s.db, range, d)
  {
    var k :| 0 <= k < |c.jobs| && c.jobs[k].height == h;
    assert k < Fed(c, s);
    assert !SomeoneHolds(s, h);
    assert d in s.cache;
    if d !in s.db.docs { ClaimOwed(c, db0, s, range, d); }
  }
}
