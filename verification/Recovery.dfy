// Crash recovery: the gap finder and the bulk pipeline together. A check reads which
// blocks of [startFrom, stopAt] are indexed, dispatches what it finds missing, and may
// die at any point; the next check starts again from what the database holds.

module Recovery {
  import opened Chain
  import opened UInt64
  import opened Pipeline
  import opened PipelineSafety
  import opened PipelineAccounts
  import opened PipelineTheorems
  import PipelineLiveness
  import opened CheckIndex

  // How checks are configured, and the range they cover.
  datatype Setup = Setup(bulkSize: int, minerNum: nat, docs: Height -> seq<Doc>, startFrom: uint64, stopAt: uint64)

  ghost predicate ValidSetup(p: Setup) {
    p.minerNum > 0 && p.startFrom <= p.stopAt < MAX
  }

  predicate InSpan(p: Setup, h: Height) {
    p.startFrom <= h <= p.stopAt
  }

  function Range(p: Setup): set<Height> {
    set h: Height | h <= p.stopAt && InSpan(p, h)
  }

  // What the scroll delivers on a database: the indexed heights of the range, downwards.
  ghost predicate Snapshot(p: Setup, db: Db, nos: seq<uint64>) {
    && NonIncreasing(nos)
    && (forall h | p.startFrom <= h <= p.stopAt :: h in nos <==> h in db.blocks)
  }

  function CheckConfig(p: Setup, nos: seq<uint64>): Config
    requires p.minerNum > 0
  {
    Config(p.bulkSize, p.minerNum, p.docs, DispatchJobs(nos, p.startFrom, p.stopAt, p.minerNum))
  }

  // One check on db: its snapshot, the timer's budget and the steps it takes.
  datatype Attempt = Attempt(nos: seq<uint64>, ticks: nat, steps: seq<Step>)

  ghost predicate Possible(p: Setup, db: Db, a: Attempt) {
    && p.minerNum > 0
    && Snapshot(p, db, a.nos)
    && Runs(CheckConfig(p, a.nos), Init(CheckConfig(p, a.nos), db, a.ticks), a.steps)
  }

  ghost function Outcome(p: Setup, db: Db, a: Attempt): State
    requires Possible(p, db, a)
  {
    After(CheckConfig(p, a.nos), Init(CheckConfig(p, a.nos), db, a.ticks), a.steps)
  }

  // What a check dispatches from: each missing height at most once, on existing channels.
  lemma CheckJobs(p: Setup, db: Db, nos: seq<uint64>)
    requires ValidSetup(p) && Snapshot(p, db, nos)
    ensures var c := CheckConfig(p, nos);
            && ValidConfig(c) && SingleJobs(c) && JobsIn(c, Range(p))
            && (forall h | IsJob(c, h) :: h !in db.blocks)
            && (forall h: Height :: IsJob(c, h) <==> ToDispatch(nos, p.startFrom, p.stopAt, h))
  {
    var c := CheckConfig(p, nos);
    DispatchExact(nos, p.startFrom, p.stopAt, p.minerNum);
    forall h: Height
      ensures IsJob(c, h) <==> ToDispatch(nos, p.startFrom, p.stopAt, h)
    {
      assert IsJob(c, h) <==> Sends(c.jobs, h);
    }
    forall k | 0 <= k < |c.jobs|
      ensures c.jobs[k].channel < c.minerNum && c.jobs[k].height !in db.blocks
    {
      assert IsJob(c, c.jobs[k].height);
    }
  }

  // ---------------------------------------------------------------- what attempts keep

  ghost predicate InRange(p: Setup, d: Doc) {
    exists h :: h in Range(p) && d in p.docs(h)
  }

  // Relative to the database the first check found: it is consistent, no account token
  // is lost for good, and nothing but documents of the range has been added.
  ghost predicate Healthy(p: Setup, base: Db, db: Db) {
    && p.minerNum > 0
    && Consistent(CheckConfig(p, []), db)
    && Recoverable(CheckConfig(p, []), db, Range(p))
    && base.blocks <= db.blocks && base.docs <= db.docs
    && (forall h | h in db.blocks :: h in base.blocks || h in Range(p))
    && (forall d | d in db.docs :: d in base.docs || InRange(p, d))
  }

  // The conditions of Healthy speak of the documents of a height only.
  lemma SameDocs(p: Setup, nos: seq<uint64>, db: Db)
    requires p.minerNum > 0
    ensures Consistent(CheckConfig(p, []), db) <==> Consistent(CheckConfig(p, nos), db)
    ensures Recoverable(CheckConfig(p, []), db, Range(p)) <==> Recoverable(CheckConfig(p, nos), db, Range(p))
  {
    var c, c' := CheckConfig(p, []), CheckConfig(p, nos);
    assert forall d :: Owed(c, db, Range(p), d) <==> Owed(c', db, Range(p), d);
  }

  lemma AttemptKeepsHealth(p: Setup, base: Db, db: Db, a: Attempt)
    requires ValidSetup(p) && Healthy(p, base, db) && Possible(p, db, a)
    ensures Healthy(p, base, Outcome(p, db, a).db)
  {
    var c, db' := CheckConfig(p, a.nos), Outcome(p, db, a).db;
    CheckJobs(p, db, a.nos);
    SameDocs(p, a.nos, db);
    SameDocs(p, a.nos, db');
    CrashConsistent(c, db, a.ticks, a.steps);
    AccountTokensRecoverable(c, db, a.ticks, a.steps, Range(p));
    OnlyJobsWritten(c, db, a.ticks, a.steps);
  }

  // A history: checks that each die somewhere, every one starting from what the one
  // before left in the database.
  ghost predicate History(p: Setup, db: Db, attempts: seq<Attempt>)
    decreases |attempts|
  {
    attempts == [] || (Possible(p, db, attempts[0]) && History(p, Outcome(p, db, attempts[0]).db, attempts[1..]))
  }

  ghost function Left(p: Setup, db: Db, attempts: seq<Attempt>): Db
    requires History(p, db, attempts)
    decreases |attempts|
  {
    if attempts == [] then db else Left(p, Outcome(p, db, attempts[0]).db, attempts[1..])
  }

  lemma {:induction false} HistoryKeepsHealth(p: Setup, base: Db, db: Db, attempts: seq<Attempt>)
    requires ValidSetup(p) && Healthy(p, base, db) && History(p, db, attempts)
    ensures Healthy(p, base, Left(p, db, attempts))
    decreases |attempts|
  {
    if attempts != [] {
      AttemptKeepsHealth(p, base, db, attempts[0]);
      HistoryKeepsHealth(p, base, Outcome(p, db, attempts[0]).db, attempts[1..]);
    }
  }

  // ---------------------------------------------------------------- complete checks

  // The database of an uninterrupted indexing of the range on top of base.
  ghost predicate FullyIndexed(p: Setup, base: Db, db: Db) {
    && db.blocks == base.blocks + Range(p)
    && (forall d :: d in db.docs <==> d in base.docs || InRange(p, d))
  }

  predicate CoversFrom(p: Setup, db: Db) {
    p.startFrom !in db.blocks || p.startFrom == p.stopAt || p.startFrom + 1 in db.blocks
  }

  // What a complete check dispatches and what it finds make up the range.
  lemma RangeCommitted(p: Setup, db: Db, nos: seq<uint64>, db': Db)
    requires ValidSetup(p) && Snapshot(p, db, nos) && CoversFrom(p, db)
    requires Complete(CheckConfig(p, nos), db') && db.blocks <= db'.blocks
    ensures Range(p) <= db'.blocks
  {
    CheckJobs(p, db, nos);
    DispatchCompleteIff(nos, p.startFrom, p.stopAt);
    forall h | h in Range(p)
      ensures h in db'.blocks
    {
      if h !in db.blocks { assert IsJob(CheckConfig(p, nos), h); }
    }
  }

  // Once the range is committed no account token is owed any more.
  lemma CommittedRangeIsIndexed(p: Setup, base: Db, db: Db)
    requires Healthy(p, base, db) && Range(p) <= db.blocks
    ensures FullyIndexed(p, base, db)
  {
    forall d | InRange(p, d)
      ensures d in db.docs
    {
      assert !Owed(CheckConfig(p, []), db, Range(p), d);
    }
  }

  // Otherwise the height above startFrom is neither found nor dispatched.
  lemma FirstGapStays(p: Setup, db: Db, nos: seq<uint64>, s: State)
    requires ValidSetup(p) && Snapshot(p, db, nos) && !CoversFrom(p, db) && Within(CheckConfig(p, nos), db, s)
    ensures p.startFrom + 1 in Range(p) && p.startFrom + 1 !in s.db.blocks
  {
    CheckJobs(p, db, nos);
    assert !IsJob(CheckConfig(p, nos), p.startFrom + 1);
  }

  // A check that runs to its end indexes the whole range exactly when, on the database
  // it starts from, startFrom is not indexed or nothing is missing right above it.
  lemma CompleteCheck(p: Setup, base: Db, db: Db, a: Attempt)
    requires ValidSetup(p) && Healthy(p, base, db) && Possible(p, db, a)
    requires Stopped(Outcome(p, db, a))
    ensures FullyIndexed(p, base, Outcome(p, db, a).db) <==> CoversFrom(p, db)
  {
    var c, s := CheckConfig(p, a.nos), Outcome(p, db, a);
    AttemptKeepsHealth(p, base, db, a);
    CheckJobs(p, db, a.nos);
    SameDocs(p, a.nos, db);
    ShutdownLeavesNothing(c, db, a.ticks, a.steps);
    OnlyJobsWritten(c, db, a.ticks, a.steps);
    if CoversFrom(p, db) {
      RangeCommitted(p, db, a.nos, s.db);
      CommittedRangeIsIndexed(p, base, s.db);
    } else {
      FirstGapStays(p, db, a.nos, s);
    }
  }

  // Crash recovery refines one clean run: any history of dying checks followed by one
  // that ends leaves the same ids in all six indices as one check of the same range run
  // to its end at the start, provided neither finds startFrom indexed below a gap.
  lemma RecoveryRefinesCleanRun(p: Setup, base: Db, crashes: seq<Attempt>, last: Attempt, clean: Attempt)
    requires ValidSetup(p) && Healthy(p, base, base)
    requires History(p, base, crashes) && Possible(p, Left(p, base, crashes), last) && Possible(p, base, clean)
    requires Stopped(Outcome(p, Left(p, base, crashes), last)) && Stopped(Outcome(p, base, clean))
    requires CoversFrom(p, Left(p, base, crashes)) && CoversFrom(p, base)
    ensures Outcome(p, Left(p, base, crashes), last).db == Outcome(p, base, clean).db
  {
    HistoryKeepsHealth(p, base, base, crashes);
    CompleteCheck(p, base, Left(p, base, crashes), last);
    CompleteCheck(p, base, base, clean);
  }

  // What the scroll delivers of the range up to a height.
  function Listing(p: Setup, db: Db, to: uint64): (nos: seq<uint64>)
    ensures NonIncreasing(nos)
    ensures forall h :: h in nos <==> p.startFrom <= h <= to && h in db.blocks
  {
    if to < p.startFrom then []
    else
      var below := if to == 0 then [] else Listing(p, db, to - 1);
      assert forall k | 0 <= k < |below| :: below[k] in below;
      if to in db.blocks then [to] + below else below
  }

  // Recovery is always to be had: after any history some check runs to its end.
  lemma RecoveryPossible(p: Setup, base: Db, crashes: seq<Attempt>) returns (last: Attempt)
    requires ValidSetup(p) && Healthy(p, base, base) && History(p, base, crashes)
    ensures Possible(p, Left(p, base, crashes), last) && Stopped(Outcome(p, Left(p, base, crashes), last))
    ensures var c := CheckConfig(p, last.nos);
            PipelineLiveness.Unaided(c, Init(c, Left(p, base, crashes), last.ticks), last.steps)
  {
    var db := Left(p, base, crashes);
    HistoryKeepsHealth(p, base, base, crashes);
    var nos := Listing(p, db, p.stopAt);
    var c := CheckConfig(p, nos);
    CheckJobs(p, db, nos);
    SameDocs(p, nos, db);
    InitSafe(c, db, 0);
    var steps := PipelineLiveness.CanFinish(c, Init(c, db, 0));
    last := Attempt(nos, 0, steps);
  }

  lemma EmptyIsHealthy(p: Setup)
    requires p.minerNum > 0
    ensures Healthy(p, Db({}, {}), Db({}, {}))
  {
  }

  // From an empty database: after any crashes, a check that ends has left the blocks and
  // documents of the range and nothing else, if it found no gap above an indexed startFrom.
  lemma RecoveryFromEmpty(p: Setup, crashes: seq<Attempt>, last: Attempt)
    requires ValidSetup(p) && History(p, Db({}, {}), crashes)
    requires Possible(p, Left(p, Db({}, {}), crashes), last) && Stopped(Outcome(p, Left(p, Db({}, {}), crashes), last))
    ensures FullyIndexed(p, Db({}, {}), Outcome(p, Left(p, Db({}, {}), crashes), last).db)
            <==> CoversFrom(p, Left(p, Db({}, {}), crashes))
  {
    EmptyIsHealthy(p);
    HistoryKeepsHealth(p, Db({}, {}), Db({}, {}), crashes);
    CompleteCheck(p, Db({}, {}), Left(p, Db({}, {}), crashes), last);
  }
}
