// No reachable state of a bulk run is stuck before its end, and every run ends.

module PipelineLiveness {
  import opened Pipeline
  import opened PipelineSafety
  import opened PipelineTheorems

  // ---------------------------------------------------------------- progress

  // A step of its own accord: not the timer's, and no claim of an id that is cached.
  predicate Takes(c: Config, s: State, step: Step) {
    Enabled(c, s, step) && !step.Tick? && (step.Claim? ==> CurrentDoc(c, s, step.m) !in s.cache)
  }

  predicate OfMiner(step: Step, m: nat) {
    step == Claim(m) || step == Skip(m) || step == SendDoc(m) || step == SendBlock(m)
  }

  lemma DependentsMove(c: Config, s: State, i: nat) returns (step: Step)
    requires Shape(c, s) && i < 5 && (s.deps[i].phase.Flushing? || s.deps[i].phase.Syncing?)
    ensures Takes(c, s, step) && (step.WriteDoc? || step.FinishDocs?)
  {
    step := if s.deps[i].buf == [] then FinishDocs(i) else WriteDoc(i, 0);
  }

  lemma BarrierMoves(c: Config, s: State) returns (step: Step)
    requires Shape(c, s) && !s.block.phase.Receiving? && !s.block.phase.Shut?
    requires forall i | 0 <= i < 5 :: !s.deps[i].phase.Flushing? && !s.deps[i].phase.Syncing?
    ensures Takes(c, s, step) && (step.Ask? || step.Ack? || step.WriteBlock? || step.FinishBlocks?)
  {
    match s.block.phase
    case Writing => step := if s.block.buf == [] then FinishBlocks else WriteBlock(0);
    case Asking(k) => step := Ask;
    case Collecting(n) =>
      OutstandingAll(s.deps);
      var i :| 0 <= i < 5 && InRound(s.deps[i]);
      step := Ack(i);
  }

  lemma MinerMoves(c: Config, s: State, m: nat) returns (step: Step)
    requires Shape(c, s) && s.block.phase.Receiving? && m < |s.miners| && Busy(s.miners[m])
    requires forall i | 0 <= i < 5 :: s.deps[i].phase.Ready?
    ensures Takes(c, s, step) && OfMiner(step, m)
  {
    if !AtDoc(c, s, m) {
      step := SendBlock(m);
    } else if s.miners[m].Mining? && CurrentDoc(c, s, m).kind == ACCTOKENS {
      step := if CurrentDoc(c, s, m) in s.cache then Skip(m) else Claim(m);
    } else {
      step := SendDoc(m);
    }
  }

  lemma Progress(c: Config, s: State) returns (step: Step)
    requires ValidConfig(c) && Shape(c, s) && !s.dispatcher.Done?
    ensures Takes(c, s, step)
  {
    if i :| 0 <= i < 5 && (s.deps[i].phase.Flushing? || s.deps[i].phase.Syncing?) {
      step := DependentsMove(c, s, i);
    } else if !s.block.phase.Receiving? && !s.block.phase.Shut? {
      step := BarrierMoves(c, s);
    } else if m :| 0 <= m < |s.miners| && Busy(s.miners[m]) {
      step := MinerMoves(c, s, m);
    } else {
      step := Dispatch;
    }
  }

  // No deadlock: short of Done, some step is always taken without the timer's help,
  // and in a barrier round the acks collected and the dependents still to be heard of
  // are five together, so no ack is missing and none is left from an earlier round.
  lemma NeverStuck(c: Config, db0: Db, ticks: nat, steps: seq<Step>)
    requires ValidConfig(c) && Consistent(c, db0) && Runs(c, Init(c, db0, ticks), steps)
    ensures var s := After(c, Init(c, db0, ticks), steps);
            && (s.dispatcher.Done? || exists step :: Takes(c, s, step))
            && (s.block.phase.Collecting? ==> Outstanding(s.deps) + s.block.phase.acks == 5)
            && (s.block.phase.Receiving? || s.block.phase.Writing? ==> Outstanding(s.deps) == 0)
  {
    InitSafe(c, db0, ticks);
    RunSafe(c, Init(c, db0, ticks), steps);
    var s := After(c, Init(c, db0, ticks), steps);
    OutstandingAll(s.deps);
    if !s.dispatcher.Done? {
      var step := Progress(c, s);
    }
  }

  // ---------------------------------------------------------------- rounds

  // steps lead from within a barrier round to the moment all its acks are in.
  ghost predicate RestOfRound(c: Config, s: State, steps: seq<Step>)
    decreases |steps|
  {
    if s.block.phase.Writing? then steps == []
    else
      && (s.block.phase.Asking? || s.block.phase.Collecting?)
      && steps != [] && Enabled(c, s, steps[0])
      && RestOfRound(c, Apply(c, s, steps[0]), steps[1..])
  }

  function Acks(steps: seq<Step>, i: nat): nat {
    if steps == [] then 0 else (if steps[0] == Ack(i) then 1 else 0) + Acks(steps[1..], i)
  }

  // The round has still to hear of dependent i.
  predicate Awaited(s: State, i: nat)
    requires i < |s.deps|
  {
    s.block.phase.Asking? || (s.block.phase.Collecting? && InRound(s.deps[i]))
  }

  lemma AwaitedAck(c: Config, s: State, j: nat, i: nat)
    requires Shape(c, s) && Enabled(c, s, Ack(j)) && Barrier(Apply(c, s, Ack(j))) && i < 5
    ensures Awaited(s, j) && (Awaited(Apply(c, s, Ack(j)), i) <==> Awaited(s, i) && j != i)
  {
    var s' := Apply(c, s, Ack(j));
    assert j != i ==> s'.deps[i] == s.deps[i];
    OutstandingAll(s'.deps);
  }

  // Only its own ack changes whether a dependent is awaited.
  lemma AwaitedStep(c: Config, s: State, step: Step, i: nat)
    requires ValidConfig(c) && Safe(c, s) && i < 5
    requires Enabled(c, s, step) && Safe(c, Apply(c, s, step)) && (s.block.phase.Asking? || s.block.phase.Collecting?)
    ensures Awaited(Apply(c, s, step), i) <==> Awaited(s, i) && step != Ack(i)
    ensures step == Ack(i) ==> Awaited(s, i)
  {
    var s' := Apply(c, s, step);
    match step
    case Ask => assert s'.block.phase.Collecting? ==> InRound(s'.deps[i]);
    case Ack(j) => AwaitedAck(c, s, j, i);
    case SendDoc(_) => assert InRound(s'.deps[i]) <==> InRound(s.deps[i]);
    case WriteDoc(_, _) => assert InRound(s'.deps[i]) <==> InRound(s.deps[i]);
    case FinishDocs(_) => assert InRound(s'.deps[i]) <==> InRound(s.deps[i]);
    case Dispatch => assert InRound(s'.deps[i]) <==> InRound(s.deps[i]);
    case _ =>
  }

  lemma {:induction false} AcksOfRest(c: Config, s: State, steps: seq<Step>, i: nat)
    requires ValidConfig(c) && Safe(c, s) && RestOfRound(c, s, steps) && i < 5
    ensures Acks(steps, i) == if Awaited(s, i) then 1 else 0
    decreases |steps|
  {
    if steps != [] {
      StepSafe(c, s, steps[0]);
      AwaitedStep(c, s, steps[0], i);
      AcksOfRest(c, Apply(c, s, steps[0]), steps[1..], i);
    }
  }

  // One ack each: whatever led to the start of a round and whatever else happens during
  // it, between the first Commit that the block writer sends and its own commit each of
  // the five dependents acks once.
  lemma OneAckEach(c: Config, db0: Db, ticks: nat, before: seq<Step>, round: seq<Step>)
    requires ValidConfig(c) && Consistent(c, db0) && Runs(c, Init(c, db0, ticks), before)
    requires After(c, Init(c, db0, ticks), before).block.phase == Asking(0)
    requires RestOfRound(c, After(c, Init(c, db0, ticks), before), round)
    ensures forall i: nat | i < 5 :: Acks(round, i) == 1
  {
    InitSafe(c, db0, ticks);
    RunSafe(c, Init(c, db0, ticks), before);
    forall i: nat | i < 5
      ensures Acks(round, i) == 1
    {
      AcksOfRest(c, After(c, Init(c, db0, ticks), before), round, i);
    }
  }

  // ---------------------------------------------------------------- termination

  function Sum(s: seq<nat>): nat {
    if s == [] then 0 else s[0] + Sum(s[1..])
  }

  lemma {:induction false} SumUpdate(s: seq<nat>, i: nat, x: nat)
    requires i < |s|
    ensures Sum(s[i := x]) + s[i] == Sum(s) + x
  {
    if i == 0 {
      assert s[0 := x][1..] == s[1..];
    } else {
      SumUpdate(s[1..], i - 1, x);
      assert s[i := x][1..] == s[1..][i - 1 := x];
    }
  }

  // What a miner has still to do for its height.
  function Work(c: Config, m: Miner): nat {
    if !Busy(m) || m.pos > |c.docs(m.h)| then 0
    else 2 * (|c.docs(m.h)| - m.pos) + if m.Mining? then 1 else 0
  }

  function MinersWork(c: Config, miners: seq<Miner>): nat {
    Sum(seq(|miners|, m requires 0 <= m < |miners| => Work(c, miners[m])))
  }

  function JobsWork(c: Config, k: nat): nat
    requires k <= |c.jobs|
    decreases |c.jobs| - k
  {
    if k == |c.jobs| then 0 else 2 * |c.docs(c.jobs[k].height)| + 2 + JobsWork(c, k + 1)
  }

  function Stage(c: Config, d: Dispatcher): nat {
    match d
    case Feeding(k) => (if k <= |c.jobs| then JobsWork(c, k) else 0) + c.minerNum + 9
    case Halting(i) => (if i <= c.minerNum then c.minerNum - i else 0) + 8
    case Forcing => 7
    case Closing => 6
    case ClosingDocs(i) => if i <= 5 then 5 - i else 0
    case Done => 0
  }

  // A document writer's pending work: its buffer and the rest of its commit.
  function Load(w: DocWriter): nat {
    |w.buf| + match w.phase
              case Flushing(_) => 2
              case Syncing => 2
              case Acking => 1
              case _ => 0
  }

  function DocsLoad(deps: seq<DocWriter>): nat {
    Sum(seq(|deps|, i requires 0 <= i < |deps| => Load(deps[i])))
  }

  function BlockLoad(w: BlockWriter): nat {
    |w.buf| + (if w.held.Some? then 1 else 0) + match w.phase
                                                case Asking(k) => if k <= 5 then 3 * (5 - k) + 6 else 0
                                                case Collecting(n) => if n <= 5 then 6 - n else 0
                                                case Writing => 1
                                                case _ => 0
  }

  // Sends still to come weigh more than the commits that one of them can set off.
  function Measure(c: Config, s: State): nat {
    32 * (Stage(c, s.dispatcher) + MinersWork(c, s.miners) + s.ticks) + DocsLoad(s.deps) + BlockLoad(s.block)
  }

  lemma MinersWorkUpdate(c: Config, miners: seq<Miner>, m: nat, x: Miner)
    requires m < |miners|
    ensures MinersWork(c, miners[m := x]) + Work(c, miners[m]) == MinersWork(c, miners) + Work(c, x)
  {
    var a := seq(|miners|, k requires 0 <= k < |miners| => Work(c, miners[k]));
    var miners' := miners[m := x];
    assert seq(|miners'|, k requires 0 <= k < |miners'| => Work(c, miners'[k])) == a[m := Work(c, x)];
    SumUpdate(a, m, Work(c, x));
  }

  lemma DocsLoadUpdate(deps: seq<DocWriter>, i: nat, w: DocWriter)
    requires i < |deps|
    ensures DocsLoad(deps[i := w]) + Load(deps[i]) == DocsLoad(deps) + Load(w)
  {
    var a := seq(|deps|, k requires 0 <= k < |deps| => Load(deps[k]));
    var deps' := deps[i := w];
    assert seq(|deps'|, k requires 0 <= k < |deps'| => Load(deps'[k])) == a[i := Load(w)];
    SumUpdate(a, i, Load(w));
  }

  lemma DispatchDecreases(c: Config, s: State)
    requires ValidConfig(c) && Shape(c, s) && CanDispatch(c, s)
    ensures Measure(c, ApplyDispatch(c, s)) < Measure(c, s)
  {
    match s.dispatcher
    case Feeding(k) =>
      if k < |c.jobs| { MinersWorkUpdate(c, s.miners, c.jobs[k].channel, Mining(c.jobs[k].height, 0)); }
    case Halting(i) =>
      if i < |s.miners| { MinersWorkUpdate(c, s.miners, i, Halted); }
    case ClosingDocs(i) => DocsLoadUpdate(s.deps, i, s.deps[i].(phase := Closed));
    case _ =>
  }

  lemma MinerStepDecreases(c: Config, s: State, step: Step)
    requires ValidConfig(c) && Shape(c, s) && Enabled(c, s, step)
    requires step.Claim? || step.Skip? || step.SendDoc? || step.SendBlock?
    ensures Measure(c, Apply(c, s, step)) < Measure(c, s)
  {
    var s' := Apply(c, s, step);
    MinersWorkUpdate(c, s.miners, step.m, s'.miners[step.m]);
    if step.SendDoc? {
      var i := CurrentDoc(c, s, step.m).kind;
      DocsLoadUpdate(s.deps, i, s'.deps[i]);
    }
  }

  lemma CommitStepDecreases(c: Config, s: State, step: Step)
    requires ValidConfig(c) && Shape(c, s) && Enabled(c, s, step)
    requires step.Ask? || step.WriteDoc? || step.FinishDocs? || step.Ack?
    ensures Measure(c, Apply(c, s, step)) < Measure(c, s)
  {
    var i := if step.Ask? then s.block.phase.dep else step.dep;
    DocsLoadUpdate(s.deps, i, Apply(c, s, step).deps[i]);
  }

  lemma StepDecreases(c: Config, s: State, step: Step)
    requires ValidConfig(c) && Shape(c, s) && Enabled(c, s, step)
    ensures Measure(c, Apply(c, s, step)) < Measure(c, s)
  {
    match step
    case Dispatch => DispatchDecreases(c, s);
    case Claim(_) => MinerStepDecreases(c, s, step);
    case Skip(_) => MinerStepDecreases(c, s, step);
    case SendDoc(_) => MinerStepDecreases(c, s, step);
    case SendBlock(_) => MinerStepDecreases(c, s, step);
    case Ask => CommitStepDecreases(c, s, step);
    case WriteDoc(_, _) => CommitStepDecreases(c, s, step);
    case FinishDocs(_) => CommitStepDecreases(c, s, step);
    case Ack(_) => CommitStepDecreases(c, s, step);
    case _ =>
  }

  lemma {:induction false} MeasureBounds(c: Config, s: State, steps: seq<Step>)
    requires ValidConfig(c) && Safe(c, s) && Runs(c, s, steps)
    ensures |steps| + Measure(c, After(c, s, steps)) <= Measure(c, s)
    decreases |steps|
  {
    if steps != [] {
      StepSafe(c, s, steps[0]);
      StepDecreases(c, s, steps[0]);
      MeasureBounds(c, Apply(c, s, steps[0]), steps[1..]);
    }
  }

  // Every run ends: none is longer than the measure of its initial state, and one that
  // can go no further, except by the timer, has stopped with everything written.
  lemma EveryRunEnds(c: Config, db0: Db, ticks: nat, steps: seq<Step>)
    requires ValidConfig(c) && Consistent(c, db0) && Runs(c, Init(c, db0, ticks), steps)
    ensures |steps| <= Measure(c, Init(c, db0, ticks))
    ensures var s := After(c, Init(c, db0, ticks), steps);
            (forall step :: Enabled(c, s, step) ==> step.Tick?) ==> s.dispatcher.Done? && Complete(c, s.db)
  {
    InitSafe(c, db0, ticks);
    MeasureBounds(c, Init(c, db0, ticks), steps);
    NeverStuck(c, db0, ticks, steps);
    ShutdownLeavesNothing(c, db0, ticks, steps);
  }

  // Every step of the run is taken of its own accord.
  ghost predicate Unaided(c: Config, s: State, steps: seq<Step>)
    decreases |steps|
  {
    steps == [] || (Takes(c, s, steps[0]) && Unaided(c, Apply(c, s, steps[0]), steps[1..]))
  }

  // From every reachable state some run reaches the end, without the timer's help and
  // without claiming an id twice.
  lemma {:induction false} CanFinish(c: Config, s: State) returns (steps: seq<Step>)
    requires ValidConfig(c) && Safe(c, s)
    ensures Runs(c, s, steps) && Unaided(c, s, steps) && After(c, s, steps).dispatcher.Done?
    decreases Measure(c, s)
  {
    if s.dispatcher.Done? {
      steps := [];
    } else {
      var step := Progress(c, s);
      StepSafe(c, s, step);
      StepDecreases(c, s, step);
      var rest := CanFinish(c, Apply(c, s, step));
      steps := [step] + rest;
      assert steps[1..] == rest;
    }
  }
}
