// What the schedule can do to an account token: a miner claims it and stalls, and every
// other height is committed without it.

module PipelineStalls {
  import opened Chain
  import opened Pipeline
  import opened PipelineSafety
  import opened PipelineAccounts
  import opened PipelineTheorems
  import opened PipelineLiveness

  // d is neither in the database nor waiting for it.
  predicate Unwritten(s: State, d: Doc) {
    |s.deps| == 5 && d !in s.db.docs && !Buffered(s.deps[ACCTOKENS], d)
  }

  // Nobody has dealt with d yet.
  ghost predicate Unheard(c: Config, s: State, d: Doc) {
    Unwritten(s, d) && d !in s.cache && forall m :: !Claiming(c, s, m, d)
  }

  // Miner m, on height h, alone has claimed d, and d has got no further.
  ghost predicate Stalled(c: Config, s: State, m: nat, h: Height, d: Doc) {
    && Unwritten(s, d) && d in s.cache
    && Claiming(c, s, m, d) && s.miners[m].h == h
    && forall n | n != m :: !Claiming(c, s, n, d)
  }

  predicate AllFed(c: Config, s: State) {
    s.dispatcher == Feeding(|c.jobs|)
  }

  predicate OthersIdle(s: State, m: nat) {
    forall n | 0 <= n < |s.miners| && n != m :: !Busy(s.miners[n])
  }

  predicate NothingInHand(s: State) {
    s.block.held.None? && (s.block.phase.Receiving? ==> s.block.buf == [])
  }

  // What the run comes to: miner m is left with its claim, and everybody else is done.
  ghost predicate Alone(c: Config, s: State, m: nat, h: Height, d: Doc) {
    && Safe(c, s) && AllFed(c, s) && Stalled(c, s, m, h, d) && OthersIdle(s, m)
    && s.block.phase.Receiving? && s.block.buf == []
  }

  ghost predicate ReachesAlone(c: Config, s: State, steps: seq<Step>, m: nat, h: Height, d: Doc) {
    Runs(c, s, steps) && Alone(c, After(c, s, steps), m, h, d)
  }

  lemma StepFirst(c: Config, s: State, step: Step, steps: seq<Step>, m: nat, h: Height, d: Doc)
    requires Enabled(c, s, step) && ReachesAlone(c, Apply(c, s, step), steps, m, h, d)
    ensures ReachesAlone(c, s, [step] + steps, m, h, d)
  {
    assert ([step] + steps)[1..] == steps;
  }

  // ---------------------------------------------------------------- the others finish

  lemma UnwrittenStays(c: Config, s: State, step: Step, d: Doc)
    requires ValidConfig(c) && Safe(c, s) && Enabled(c, s, step) && Unwritten(s, d) && d.kind == ACCTOKENS
    requires step.SendDoc? ==> CurrentDoc(c, s, step.m) != d
    ensures Unwritten(Apply(c, s, step), d)
  {
    if step.WriteDoc? { assert Buffered(s.deps[step.dep], s.deps[step.dep].buf[step.j]); }
  }

  lemma ClaimingSplit(c: Config, s: State, step: Step, n: nat, d: Doc)
    requires ValidConfig(c) && Shape(c, s) && Enabled(c, s, step) && Claiming(c, Apply(c, s, step), n, d)
    ensures Claiming(c, s, n, d) || (step == Claim(n) && CurrentDoc(c, s, n) == d)
  {
  }

  lemma StalledStays(c: Config, s: State, step: Step, m: nat, h: Height, d: Doc)
    requires ValidConfig(c) && Safe(c, s) && Stalled(c, s, m, h, d) && d.kind == ACCTOKENS
    requires (Takes(c, s, step) || step == Tick) && Enabled(c, s, step) && !OfMiner(step, m) && !step.Dispatch?
    ensures Stalled(c, Apply(c, s, step), m, h, d)
  {
    var s' := Apply(c, s, step);
    if step.SendDoc? && CurrentDoc(c, s, step.m) == d {
      assert Claiming(c, s, step.m, d);
      assert false;
    }
    UnwrittenStays(c, s, step, d);
    assert s'.miners[m] == s.miners[m];
    forall n: nat | n != m
      ensures !Claiming(c, s', n, d)
    {
      if Claiming(c, s', n, d) { ClaimingSplit(c, s, step, n, d); }
    }
  }

  lemma IdleStays(c: Config, s: State, step: Step, m: nat)
    requires Shape(c, s) && Enabled(c, s, step) && !step.Dispatch? && OthersIdle(s, m) && NothingInHand(s)
    requires !OfMiner(step, m)
    ensures OthersIdle(Apply(c, s, step), m) && NothingInHand(Apply(c, s, step))
  {
  }

  // Something that neither miner m nor the dispatcher does, while there is any.
  lemma OthersMove(c: Config, s: State, m: nat) returns (step: Step)
    requires Shape(c, s) && AllFed(c, s) && (s.ticks > 0 || (OthersIdle(s, m) && NothingInHand(s)))
    requires !(OthersIdle(s, m) && s.block.phase.Receiving? && s.block.buf == []
               && forall i | 0 <= i < 5 :: s.deps[i].phase.Ready?)
    ensures Enabled(c, s, step) && (Takes(c, s, step) || step == Tick) && !OfMiner(step, m) && !step.Dispatch?
    ensures step == Tick ==> OthersIdle(s, m)
  {
    if i :| 0 <= i < 5 && (s.deps[i].phase.Flushing? || s.deps[i].phase.Syncing?) {
      step := DependentsMove(c, s, i);
    } else if !s.block.phase.Receiving? {
      step := BarrierMoves(c, s);
    } else if n: nat :| n < |s.miners| && n != m && Busy(s.miners[n]) {
      step := MinerMoves(c, s, n);
    } else {
      step := Tick;
    }
  }

  lemma {:induction false} OthersFinish(c: Config, s: State, m: nat, h: Height, d: Doc) returns (steps: seq<Step>)
    requires ValidConfig(c) && Safe(c, s) && AllFed(c, s) && Stalled(c, s, m, h, d) && d.kind == ACCTOKENS
    requires s.ticks > 0 || (OthersIdle(s, m) && NothingInHand(s))
    ensures ReachesAlone(c, s, steps, m, h, d)
    decreases Measure(c, s)
  {
    if OthersIdle(s, m) && s.block.phase.Receiving? && s.block.buf == []
       && forall i | 0 <= i < 5 :: s.deps[i].phase.Ready? {
      steps := [];
    } else {
      var step := OthersMove(c, s, m);
      StepSafe(c, s, step);
      StepDecreases(c, s, step);
      StalledStays(c, s, step, m, h, d);
      BudgetStays(c, s, step, m);
      var rest := OthersFinish(c, Apply(c, s, step), m, h, d);
      steps := [step] + rest;
      StepFirst(c, s, step, rest, m, h, d);
    }
  }

  // The timer is needed at most once more: when nobody but miner m has anything to send.
  lemma BudgetStays(c: Config, s: State, step: Step, m: nat)
    requires Shape(c, s) && AllFed(c, s) && Enabled(c, s, step) && !OfMiner(step, m) && !step.Dispatch?
    requires (s.ticks > 0 || (OthersIdle(s, m) && NothingInHand(s))) && (step == Tick ==> OthersIdle(s, m))
    ensures var s' := Apply(c, s, step); AllFed(c, s') && (s'.ticks > 0 || (OthersIdle(s', m) && NothingInHand(s')))
  {
    if OthersIdle(s, m) && NothingInHand(s) { IdleStays(c, s, step, m); }
  }

  // ---------------------------------------------------------------- the claim

  // Miner m is on its way to d, the p-th document of h and none before.
  ghost predicate Approaching(c: Config, s: State, m: nat, h: Height, p: nat, d: Doc) {
    && m < |s.miners| && Busy(s.miners[m]) && s.miners[m].h == h
    && s.miners[m].pos <= p < |c.docs(h)| && c.docs(h)[p] == d && d.kind == ACCTOKENS
    && forall i | 0 <= i < p :: c.docs(h)[i] != d
  }

  lemma ApproachStays(c: Config, s: State, step: Step, m: nat, h: Height, p: nat, d: Doc)
    requires ValidConfig(c) && Safe(c, s) && Unheard(c, s, d) && Approaching(c, s, m, h, p, d) && Enabled(c, s, step)
    requires step.WriteDoc? || step.FinishDocs? || (OfMiner(step, m) && s.miners[m].pos < p)
    requires s.block.phase.Receiving?
    ensures Unheard(c, Apply(c, s, step), d) && Approaching(c, Apply(c, s, step), m, h, p, d)
    ensures Apply(c, s, step).block == s.block && Apply(c, s, step).ticks == s.ticks
  {
    var s' := Apply(c, s, step);
    assert OfMiner(step, m) ==> AtDoc(c, s, m) && CurrentDoc(c, s, m) != d;
    UnwrittenStays(c, s, step, d);
    forall n: nat
      ensures !Claiming(c, s', n, d)
    {
      if Claiming(c, s', n, d) { ClaimingSplit(c, s, step, n, d); }
    }
  }

  lemma ClaimStalls(c: Config, s: State, m: nat, h: Height, p: nat, d: Doc)
    requires ValidConfig(c) && Shape(c, s) && Unheard(c, s, d) && Approaching(c, s, m, h, p, d)
             && s.miners[m] == Mining(h, p)
    ensures Takes(c, s, Claim(m)) && Stalled(c, Apply(c, s, Claim(m)), m, h, d)
  {
    var s' := Apply(c, s, Claim(m));
    forall n: nat | n != m
      ensures !Claiming(c, s', n, d)
    {
      if Claiming(c, s', n, d) { ClaimingSplit(c, s, Claim(m), n, d); }
    }
  }

  lemma {:induction false} ThenClaim(c: Config, s: State, m: nat, h: Height, p: nat, d: Doc) returns (steps: seq<Step>)
    requires ValidConfig(c) && Safe(c, s) && AllFed(c, s) && Unheard(c, s, d) && Approaching(c, s, m, h, p, d)
    requires s.block.phase.Receiving? && s.ticks > 0
    ensures ReachesAlone(c, s, steps, m, h, d)
    decreases Measure(c, s)
  {
    var step: Step;
    if i :| 0 <= i < 5 && (s.deps[i].phase.Flushing? || s.deps[i].phase.Syncing?) {
      step := DependentsMove(c, s, i);
    } else if s.miners[m].pos < p {
      step := MinerMoves(c, s, m);
    } else {
      assert s.miners[m].Claimed? ==> Claiming(c, s, m, d);
      step := Claim(m);
    }
    StepSafe(c, s, step);
    StepDecreases(c, s, step);
    var rest: seq<Step>;
    if step == Claim(m) && s.miners[m].pos == p {
      ClaimStalls(c, s, m, h, p, d);
      rest := OthersFinish(c, Apply(c, s, step), m, h, d);
    } else {
      ApproachStays(c, s, step, m, h, p, d);
      rest := ThenClaim(c, Apply(c, s, step), m, h, p, d);
    }
    steps := [step] + rest;
    StepFirst(c, s, step, rest, m, h, d);
  }

  // ---------------------------------------------------------------- the dispatch

  // No two jobs go to the same miner.
  ghost predicate OneEach(c: Config) {
    forall a, b | 0 <= a < b < |c.jobs| :: c.jobs[a].channel != c.jobs[b].channel
  }

  // The first k jobs are with their miners, untouched; the other miners wait.
  ghost predicate Dealing(c: Config, s: State, k: nat)
    requires ValidConfig(c)
  {
    && k <= |c.jobs| && s.dispatcher == Feeding(k) && |s.miners| == c.minerNum && s.block.phase.Receiving?
    && (forall a | 0 <= a < k :: s.miners[c.jobs[a].channel] == Mining(c.jobs[a].height, 0))
    && (forall a | k <= a < |c.jobs| :: s.miners[c.jobs[a].channel].Waiting?)
    && (forall n | 0 <= n < |s.miners| :: !s.miners[n].Claimed?)
  }

  lemma {:induction false} ThenDeal(c: Config, s: State, k: nat, j: nat, p: nat, d: Doc) returns (steps: seq<Step>)
    requires ValidConfig(c) && OneEach(c) && Safe(c, s) && Dealing(c, s, k) && Unheard(c, s, d) && s.ticks > 0
    requires j < |c.jobs| && p < |c.docs(c.jobs[j].height)| && c.docs(c.jobs[j].height)[p] == d && d.kind == ACCTOKENS
    requires forall i | 0 <= i < p :: c.docs(c.jobs[j].height)[i] != d
    ensures ReachesAlone(c, s, steps, c.jobs[j].channel, c.jobs[j].height, d)
    decreases |c.jobs| - k
  {
    if k == |c.jobs| {
      steps := ThenClaim(c, s, c.jobs[j].channel, c.jobs[j].height, p, d);
    } else {
      StepSafe(c, s, Dispatch);
      var s' := Apply(c, s, Dispatch);
      assert forall a | 0 <= a < |c.jobs| && a != k :: c.jobs[a].channel != c.jobs[k].channel;
      assert forall m :: !Claiming(c, s', m, d);
      var rest := ThenDeal(c, s', k + 1, j, p, d);
      steps := [Dispatch] + rest;
      StepFirst(c, s, Dispatch, rest, c.jobs[j].channel, c.jobs[j].height, d);
    }
  }

  lemma FirstPlace(docs: seq<Doc>, d: Doc) returns (p: nat)
    requires d in docs
    ensures p < |docs| && docs[p] == d && forall i | 0 <= i < p :: docs[i] != d
  {
    p := 0;
    while docs[p] != d
      invariant p < |docs| && d in docs[p..]
      invariant forall i | 0 <= i < p :: docs[i] != d
      decreases |docs| - p
    {
      p := p + 1;
    }
  }

  // Then nobody but miner m holds anything, and every other height is committed.
  lemma AloneCommits(c: Config, s: State, m: nat, h: Height, d: Doc, g: Height)
    requires Alone(c, s, m, h, d) && IsJob(c, g) && g != h
    ensures g in s.db.blocks
  {
    assert !SomeoneHolds(s, g);
  }

  // A run of jobs that each have a miner of their own can leave all of them but one
  // committed and a document that this one yields, new to the database, unwritten.
  lemma StallLeavesOut(c: Config, db0: Db, j: nat, d: Doc) returns (steps: seq<Step>)
    requires ValidConfig(c) && Consistent(c, db0) && SingleJobs(c) && OneEach(c)
    requires j < |c.jobs| && d in c.docs(c.jobs[j].height) && d.kind == ACCTOKENS && d !in db0.docs
    ensures Runs(c, Init(c, db0, 1), steps)
    ensures var db := After(c, Init(c, db0, 1), steps).db;
            && d !in db.docs && db0.blocks <= db.blocks
            && (forall a | 0 <= a < |c.jobs| && a != j :: c.jobs[a].height in db.blocks)
            && (c.jobs[j].height in db.blocks ==> c.jobs[j].height in db0.blocks)
  {
    var s0, h := Init(c, db0, 1), c.jobs[j].height;
    var p := FirstPlace(c.docs(h), d);
    InitSafe(c, db0, 1);
    steps := ThenDeal(c, s0, 0, j, p, d);
    var s := After(c, s0, steps);
    RunFresh(c, db0, s0, steps);
    OnlyJobsWritten(c, db0, 1, steps);
    assert Holds(s, c.jobs[j].channel, h);
    forall a | 0 <= a < |c.jobs| && a != j
      ensures c.jobs[a].height in s.db.blocks
    {
      AloneCommits(c, s, c.jobs[j].channel, h, d, c.jobs[a].height);
    }
  }
}
