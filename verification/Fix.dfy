// Mode fix: fixIndex of indexer/run_check.go sends the whole range to the pipeline,
// heights that are committed already included.

module Fix {
  import opened Chain
  import opened UInt64
  import opened Pipeline
  import opened PipelineSafety
  import opened PipelineAccounts
  import opened PipelineTheorems
  import opened PipelineStalls
  import opened CheckIndex
  import opened Recovery

  ghost predicate FixSetup(p: Setup) {
    p.minerNum > 0 && p.startFrom <= p.stopAt
  }

  function FixConfig(p: Setup): Config
    requires p.minerNum > 0
  {
    Config(p.bulkSize, p.minerNum, p.docs, RangeJobs(p.startFrom, p.stopAt, p.minerNum))
  }

  lemma FixJobs(p: Setup)
    requires FixSetup(p)
    ensures var c := FixConfig(p); ValidConfig(c) && SingleJobs(c) && JobsIn(c, Range(p))
    ensures forall h: Height :: IsJob(FixConfig(p), h) <==> InSpan(p, h)
  {
    RangeSends(p.startFrom, p.stopAt, p.minerNum);
    var c := FixConfig(p);
    assert forall h: Height :: IsJob(c, h) <==> Sends(c.jobs, h);
  }

  // ---------------------------------------------------------------- a complete fix

  // A fix that runs to its end leaves the whole range indexed, account tokens included,
  // whatever of it was committed before and however little of that was there.
  lemma CompleteFix(p: Setup, db0: Db, ticks: nat, steps: seq<Step>)
    requires FixSetup(p) && Consistent(FixConfig(p), db0) && Runs(FixConfig(p), Init(FixConfig(p), db0, ticks), steps)
    requires Stopped(After(FixConfig(p), Init(FixConfig(p), db0, ticks), steps))
    ensures FullyIndexed(p, db0, After(FixConfig(p), Init(FixConfig(p), db0, ticks), steps).db)
  {
    var c := FixConfig(p);
    var db := After(c, Init(c, db0, ticks), steps).db;
    FixJobs(p);
    ShutdownLeavesNothing(c, db0, ticks, steps);
    OnlyJobsWritten(c, db0, ticks, steps);
    forall h | h in Range(p)
      ensures h in db.blocks && forall d | d in p.docs(h) :: d in db.docs
    {
      assert IsJob(c, h);
    }
    forall d | d in db.docs && d !in db0.docs
      ensures InRange(p, d)
    {
      assert FromJob(c, d);
    }
  }

  // ---------------------------------------------------------------- a fix that dies

  // However many miners there are, however large the buffers, and wherever the fix dies,
  // the account tokens of committed blocks are there or owed by a height of range.
  ghost predicate KeepsTokens(p: Setup, db0: Db, range: set<Height>)
    requires p.minerNum > 0
  {
    forall bulkSize: int, minerNum: nat, ticks: nat, steps: seq<Step> | minerNum > 0 ::
      var c := FixConfig(p.(bulkSize := bulkSize, minerNum := minerNum));
      Runs(c, Init(c, db0, ticks), steps) ==> Recoverable(c, After(c, Init(c, db0, ticks), steps).db, range)
  }

  // The conditions on a database speak of the documents of a height and of the range only.
  lemma SameForAll(p: Setup, bulkSize: int, minerNum: nat, db: Db, range: set<Height>)
    requires FixSetup(p) && minerNum > 0
    ensures var c, c' := FixConfig(p), FixConfig(p.(bulkSize := bulkSize, minerNum := minerNum));
            && (Consistent(c, db) <==> Consistent(c', db))
            && (Recoverable(c, db, range) <==> Recoverable(c', db, range))
            && (Secured(c, db, range) <==> Secured(c', db, range))
  {
    var p' := p.(bulkSize := bulkSize, minerNum := minerNum);
    var c, c' := FixConfig(p), FixConfig(p');
    FixJobs(p);
    FixJobs(p');
    assert forall h: Height :: IsJob(c, h) <==> IsJob(c', h);
    assert forall d :: Owed(c, db, range, d) <==> Owed(c', db, range, d);
    assert forall d :: OwedElsewhere(c, db, range, d) <==> OwedElsewhere(c', db, range, d);
  }

  lemma OwnChannel(p: Setup, a: nat)
    requires p.startFrom <= p.stopAt && p.minerNum == p.stopAt + 1 && a < |FixConfig(p).jobs|
    ensures var job := FixConfig(p).jobs[a];
            job.height <= p.stopAt && job.channel == if job.height == p.startFrom then 0 else job.height
  {
    RangeSends(p.startFrom, p.stopAt, p.minerNum);
    var job := FixConfig(p).jobs[a];
    assert Sends(FixConfig(p).jobs, job.height);
    ModUnique(job.height, 0, job.height, p.minerNum);
  }

  lemma OwnChannels(p: Setup)
    requires p.startFrom <= p.stopAt && p.minerNum == p.stopAt + 1
    ensures OneEach(FixConfig(p))
  {
    var c := FixConfig(p);
    FixJobs(p);
    forall a, b | 0 <= a < b < |c.jobs|
      ensures c.jobs[a].channel != c.jobs[b].channel
    {
      OwnChannel(p, a);
      OwnChannel(p, b);
      assert IsJob(c, c.jobs[a].height) && IsJob(c, c.jobs[b].height);
    }
  }

  // With a miner for every height the one that yields d can claim it and stall.
  lemma FixLeavesOut(p: Setup, db0: Db, h: Height, d: Doc) returns (steps: seq<Step>)
    requires p.startFrom <= h <= p.stopAt && p.minerNum == p.stopAt + 1 && Consistent(FixConfig(p), db0)
    requires h in db0.blocks && d in p.docs(h) && d.kind == ACCTOKENS && d !in db0.docs
    ensures Runs(FixConfig(p), Init(FixConfig(p), db0, 1), steps)
    ensures var db := After(FixConfig(p), Init(FixConfig(p), db0, 1), steps).db;
            d !in db.docs && db0.blocks <= db.blocks && Range(p) <= db.blocks
  {
    var c := FixConfig(p);
    FixJobs(p);
    OwnChannels(p);
    assert IsJob(c, h);
    var j: nat :| j < |c.jobs| && c.jobs[j].height == h;
    steps := StallLeavesOut(c, db0, j, d);
    var db := After(c, Init(c, db0, 1), steps).db;
    forall g | g in Range(p)
      ensures g in db.blocks
    {
      assert IsJob(c, g);
      var a: nat :| a < |c.jobs| && c.jobs[a].height == g;
      assert a == j ==> g == h;
    }
  }

  // A fix keeps account tokens recoverable, whatever its schedule, if and only if those
  // of every committed height of the range are there, or owed by a height outside it.
  lemma FixKeepsTokensIff(p: Setup, db0: Db, range: set<Height>)
    requires FixSetup(p) && Range(p) <= range
    requires Consistent(FixConfig(p), db0) && Recoverable(FixConfig(p), db0, range)
    ensures KeepsTokens(p, db0, range) <==> Secured(FixConfig(p), db0, range)
  {
    var c := FixConfig(p);
    FixJobs(p);
    if Secured(c, db0, range) {
      forall bulkSize: int, minerNum: nat, ticks: nat, steps: seq<Step> | minerNum > 0
        ensures var c' := FixConfig(p.(bulkSize := bulkSize, minerNum := minerNum));
                Runs(c', Init(c', db0, ticks), steps) ==>
                  Recoverable(c', After(c', Init(c', db0, ticks), steps).db, range)
      {
        var p' := p.(bulkSize := bulkSize, minerNum := minerNum);
        var c' := FixConfig(p');
        if Runs(c', Init(c', db0, ticks), steps) {
          SameForAll(p, bulkSize, minerNum, db0, range);
          FixJobs(p');
          AccountTokensRecoverable(c', db0, ticks, steps, range);
        }
      }
    } else {
      UnsecuredIsLost(p, db0, range);
    }
  }

  lemma UnsecuredIsLost(p: Setup, db0: Db, range: set<Height>)
    requires FixSetup(p) && Range(p) <= range
    requires Consistent(FixConfig(p), db0) && !Secured(FixConfig(p), db0, range)
    ensures !KeepsTokens(p, db0, range)
  {
    var c := FixConfig(p);
    var p' := p.(minerNum := p.stopAt + 1);
    var c' := FixConfig(p');
    FixJobs(p);
    FixJobs(p');
    SameForAll(p, p.bulkSize, p.stopAt + 1, db0, range);
    var h, d :| IsJob(c, h) && h in db0.blocks && d in c.docs(h) && d.kind == ACCTOKENS
                && d !in db0.docs && !OwedElsewhere(c, db0, range, d);
    var steps := FixLeavesOut(p', db0, h, d);
    var db := After(c', Init(c', db0, 1), steps).db;
    assert !Owed(c', db, range, d);
    assert !Recoverable(c', db, range);
  }

  lemma CheckLeavesOut(p: Setup, d: Doc) returns (a: Attempt)
    requires p.minerNum == 4 && p.startFrom == 1 && p.stopAt == 3 && d in p.docs(2) && d.kind == ACCTOKENS
    ensures Possible(p, Db({}, {}), a)
    ensures var db := Outcome(p, Db({}, {}), a).db; 3 in db.blocks && d !in db.docs
  {
    var none: seq<uint64>, empty := [], Db({}, {});
    var c := CheckConfig(p, none);
    CheckJobs(p, empty, none);
    assert c.jobs == RangeJobs(1, 3, 4);
    assert c.jobs[0].height == 3 && c.jobs[1].height == 2 && c.jobs[2].height == 1;
    var steps := StallLeavesOut(c, empty, 1, d);
    a := Attempt(none, 1, steps);
  }

  // An instance, from an empty database: 2 and 3 yield the same account token. A check of
  // 1 to 3 can die leaving 3 committed and the token out, which 2 still owes; a fix of
  // the same range can then die leaving 2 committed as well and the token out for good.
  lemma CheckThenFixLosesToken(p: Setup, d: Doc) returns (a: Attempt)
    requires p.minerNum == 4 && p.startFrom == 1 && p.stopAt == 3
    requires d in p.docs(2) && d in p.docs(3) && d.kind == ACCTOKENS
    ensures Possible(p, Db({}, {}), a)
    ensures var db := Outcome(p, Db({}, {}), a).db;
            Healthy(p, Db({}, {}), db) && !KeepsTokens(p, db, Range(p))
  {
    a := CheckLeavesOut(p, d);
    EmptyIsHealthy(p);
    AttemptKeepsHealth(p, Db({}, {}), Db({}, {}), a);
    CommittedUnwritten(p, Outcome(p, Db({}, {}), a).db, 3, d);
  }

  // A committed height of the range whose account token is not there is enough when
  // nothing outside the range is to be mined.
  lemma CommittedUnwritten(p: Setup, db: Db, h: Height, d: Doc)
    requires FixSetup(p) && Consistent(CheckConfig(p, []), db) && h in Range(p) && h in db.blocks
    requires d in p.docs(h) && d.kind == ACCTOKENS && d !in db.docs
    ensures !KeepsTokens(p, db, Range(p))
  {
    FixJobs(p);
    assert IsJob(FixConfig(p), h);
    UnsecuredIsLost(p, db, Range(p));
  }
}
