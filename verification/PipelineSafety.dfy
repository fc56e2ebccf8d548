// What every step of the pipeline keeps, and what that says of the database at any
// moment the process may die.

module PipelineSafety {
  import opened Chain
  import opened Wrappers
  import opened Pipeline

  // ---------------------------------------------------------------- vocabulary

  predicate Busy(m: Miner) {
    m.Mining? || m.Claimed?
  }

  // d is waiting in w for a commit.
  predicate Buffered(w: DocWriter, d: Doc) {
    d in w.buf || (w.phase.Flushing? && w.phase.held == d)
  }

  // The block writer has accepted the block of h and not written it yet.
  predicate InHand(w: BlockWriter, h: Height) {
    h in w.buf || w.held == Some(h)
  }

  // w is taking part in the current barrier round and has not been heard of since.
  predicate InRound(w: DocWriter) {
    w.phase.Syncing? || w.phase.Acking?
  }

  function Outstanding(deps: seq<DocWriter>): nat {
    if deps == [] then 0 else (if InRound(deps[0]) then 1 else 0) + Outstanding(deps[1..])
  }

  // Dependent i has written everything it held when the current round reached it.
  predicate Flushed(s: State, i: nat) {
    && i < |s.deps|
    && match s.block.phase
       case Asking(k) => i < k && !s.deps[i].phase.Syncing?
       case Collecting(_) => !s.deps[i].phase.Syncing?
       case Writing => true
       case _ => false
  }

  // Miner m has dealt with d on behalf of the height it is mining.
  predicate Dealt(c: Config, s: State, m: nat, d: Doc) {
    && m < |s.miners| && Busy(s.miners[m])
    && s.miners[m].pos <= |c.docs(s.miners[m].h)|
    && d in c.docs(s.miners[m].h)[..s.miners[m].pos]
  }

  predicate Holds(s: State, m: nat, h: Height) {
    m < |s.miners| && Busy(s.miners[m]) && s.miners[m].h == h
  }

  // Miner m has stored d in the cache and is about to send it.
  predicate Claiming(c: Config, s: State, m: nat, d: Doc) {
    m < |s.miners| && s.miners[m].Claimed? && AtDoc(c, s, m) && CurrentDoc(c, s, m) == d
  }

  // ---------------------------------------------------------------- shape

  // The barrier: in a round, exactly the dependents asked and not yet heard of take
  // part, and outside a round nobody does, so no ack is ever left over.
  ghost predicate Barrier(s: State) {
    && |s.deps| == 5
    && (forall i | 0 <= i < 5 :: s.deps[i].phase.Acking? ==> s.deps[i].buf == [])
    && (s.block.phase.Receiving? || s.block.phase.Shut? ==> s.block.held == None)
    && match s.block.phase
       case Asking(k) => k < 5 && forall i | 0 <= i < 5 :: InRound(s.deps[i]) <==> i < k
       case Collecting(n) => n < 5 && Outstanding(s.deps) + n == 5
       case _ => forall i | 0 <= i < 5 :: !InRound(s.deps[i])
  }

  // The dispatcher: what has been halted and closed follows from how far it is.
  ghost predicate Ordered(c: Config, s: State) {
    && |s.deps| == 5
    && |s.miners| == c.minerNum
    && (forall m | 0 <= m < |s.miners| ::
          s.miners[m].Halted? <==> (match s.dispatcher
                                    case Feeding(_) => false
                                    case Halting(i) => m < i
                                    case _ => true))
    && (forall m | 0 <= m < |s.miners| ::
          Busy(s.miners[m]) ==> s.miners[m].pos <= |c.docs(s.miners[m].h)|)
    && (forall m | 0 <= m < |s.miners| ::
          s.miners[m].Claimed? ==> AtDoc(c, s, m) && CurrentDoc(c, s, m).kind == ACCTOKENS)
    && (forall i | 0 <= i < 5 ::
          s.deps[i].phase.Closed? <==> (match s.dispatcher
                                        case ClosingDocs(k) => i < k
                                        case Done => true
                                        case _ => false))
    && match s.dispatcher
       case Feeding(k) => k <= |c.jobs| && !s.block.phase.Shut?
       case Halting(i) => i <= |s.miners| && !s.block.phase.Shut?
       case Forcing => !s.block.phase.Shut?
       case Closing => !s.block.phase.Shut? && s.block.held == None && (s.block.phase.Receiving? ==> s.block.buf == [])
       case ClosingDocs(k) => k < 5 && s.block == BlockWriter(Shut, [], None)
       case Done => s.block == BlockWriter(Shut, [], None)
  }

  // ---------------------------------------------------------------- contents

  // Miners hand on documents before they go on: what a miner has dealt with, apart
  // from account tokens, is in the database or in a buffer.
  ghost predicate Sent(c: Config, s: State) {
    forall m, d | Dealt(c, s, m, d) && d.kind != ACCTOKENS ::
      d in s.db.docs || (d.kind < |s.deps| && Buffered(s.deps[d.kind], d))
  }

  // The documents of a block the block writer holds are in the database, or in a
  // dependent that the current round has still to flush.
  ghost predicate Backed(c: Config, s: State) {
    forall h, d | InHand(s.block, h) && d in c.docs(h) && d.kind != ACCTOKENS :: d in s.db.docs || Due(s, d)
  }

  // d waits in its dependent for a flush that the current round, if any, has still to do.
  predicate Due(s: State, d: Doc) {
    d.kind < |s.deps| && !Flushed(s, d.kind) && Buffered(s.deps[d.kind], d)
  }

  ghost predicate FromBlock(c: Config, s: State, d: Doc) {
    exists h :: InHand(s.block, h) && d in c.docs(h)
  }

  ghost predicate FromMiner(c: Config, s: State, d: Doc) {
    exists m :: Dealt(c, s, m, d)
  }

  ghost predicate HasSource(c: Config, s: State, i: nat, d: Doc) {
    FromMiner(c, s, d) || (!Flushed(s, i) && FromBlock(c, s, d))
  }

  // Every buffered document belongs to a height whose block is still to be written.
  ghost predicate Sourced(c: Config, s: State) {
    forall i, d | 0 <= i < |s.deps| && Buffered(s.deps[i], d) ::
      d.kind == i && HasSource(c, s, i, d)
  }

  // The crash-consistency condition on a database.
  ghost predicate Consistent(c: Config, db: Db) {
    forall h, d | h in db.blocks && d in c.docs(h) && d.kind != ACCTOKENS :: d in db.docs
  }

  // Every height dispatched so far is committed, in the block writer's hands, or with a miner.
  ghost predicate SomeoneHolds(s: State, h: Height) {
    exists m :: Holds(s, m, h)
  }

  function Fed(c: Config, s: State): nat {
    match s.dispatcher
    case Feeding(k) => if k <= |c.jobs| then k else |c.jobs|
    case _ => |c.jobs|
  }

  ghost predicate Tracked(c: Config, s: State) {
    forall k | 0 <= k < Fed(c, s) ::
      var h := c.jobs[k].height;
      h in s.db.blocks || InHand(s.block, h) || SomeoneHolds(s, h)
  }

  // ---------------------------------------------------------------- the invariant

  ghost predicate Shape(c: Config, s: State) {
    Barrier(s) && Ordered(c, s)
  }

  ghost predicate Safe(c: Config, s: State) {
    && Shape(c, s)
    && Sent(c, s)
    && Backed(c, s)
    && Sourced(c, s)
    && Consistent(c, s.db)
    && Tracked(c, s)
  }

  lemma {:induction false} OutstandingUpdate(deps: seq<DocWriter>, i: nat, w: DocWriter)
    requires i < |deps|
    ensures Outstanding(deps[i := w]) + (if InRound(deps[i]) then 1 else 0)
            == Outstanding(deps) + (if InRound(w) then 1 else 0)
  {
    if i == 0 {
      assert deps[0 := w][1..] == deps[1..];
    } else {
      OutstandingUpdate(deps[1..], i - 1, w);
      assert deps[i := w][1..] == deps[1..][i - 1 := w];
    }
  }

  lemma {:induction false} OutstandingAll(deps: seq<DocWriter>)
    ensures Outstanding(deps) <= |deps|
    ensures (forall i | 0 <= i < |deps| :: InRound(deps[i])) <==> Outstanding(deps) == |deps|
    ensures (forall i | 0 <= i < |deps| :: !InRound(deps[i])) <==> Outstanding(deps) == 0
  {
    if deps != [] {
      OutstandingAll(deps[1..]);
      assert forall i | 0 < i < |deps| :: deps[i] == deps[1..][i - 1];
    }
  }

  lemma InitSafe(c: Config, db: Db, ticks: nat)
    requires ValidConfig(c) && Consistent(c, db)
    ensures Safe(c, Init(c, db, ticks))
  {
  }

  // Steps that touch one dependent leave the count of the others alone.
  lemma BarrierKeptByDependent(c: Config, s: State, step: Step, i: nat)
    requires Shape(c, s) && Enabled(c, s, step) && i < 5
    requires (step.SendDoc? && i == CurrentDoc(c, s, step.m).kind)
             || (step.WriteDoc? && i == step.dep) || (step.FinishDocs? && i == step.dep)
    ensures Barrier(Apply(c, s, step))
  {
    OutstandingUpdate(s.deps, i, Apply(c, s, step).deps[i]);
  }

  lemma BarrierKeptByRound(c: Config, s: State, step: Step)
    requires Shape(c, s) && Enabled(c, s, step) && (step.Ask? || step.Ack?)
    ensures Barrier(Apply(c, s, step))
  {
    var s' := Apply(c, s, step);
    if step.Ack? { OutstandingUpdate(s.deps, step.dep, s'.deps[step.dep]); }
    OutstandingAll(s'.deps);
  }

  lemma BarrierKeptByDispatch(c: Config, s: State)
    requires Shape(c, s) && CanDispatch(c, s)
    ensures Barrier(ApplyDispatch(c, s))
  {
    if s.dispatcher.ClosingDocs? {
      OutstandingUpdate(s.deps, s.dispatcher.dep, ApplyDispatch(c, s).deps[s.dispatcher.dep]);
    }
  }

  lemma BarrierKept(c: Config, s: State, step: Step)
    requires Shape(c, s) && Enabled(c, s, step)
    ensures Barrier(Apply(c, s, step))
  {
    match step
    case SendDoc(m) => BarrierKeptByDependent(c, s, step, CurrentDoc(c, s, m).kind);
    case WriteDoc(i, _) => BarrierKeptByDependent(c, s, step, i);
    case FinishDocs(i) => BarrierKeptByDependent(c, s, step, i);
    case Ask => BarrierKeptByRound(c, s, step);
    case Ack(_) => BarrierKeptByRound(c, s, step);
    case Dispatch => BarrierKeptByDispatch(c, s);
    case _ => assert Apply(c, s, step).deps == s.deps;
  }

  lemma OrderedKeptByDispatch(c: Config, s: State)
    requires ValidConfig(c) && Shape(c, s) && CanDispatch(c, s)
    ensures Ordered(c, ApplyDispatch(c, s))
  {
  }

  lemma OrderedKeptByMiner(c: Config, s: State, step: Step)
    requires Shape(c, s) && Enabled(c, s, step) && (step.Claim? || step.Skip? || step.SendDoc? || step.SendBlock?)
    ensures Ordered(c, Apply(c, s, step))
  {
    var s' := Apply(c, s, step);
    assert forall m | 0 <= m < |s.miners| && m != step.m :: s'.miners[m] == s.miners[m];
    assert forall i | 0 <= i < 5 :: s'.deps[i].phase.Closed? <==> s.deps[i].phase.Closed?;
  }

  lemma OrderedKeptByDependent(c: Config, s: State, step: Step)
    requires Shape(c, s) && Enabled(c, s, step) && (step.WriteDoc? || step.FinishDocs? || step.Ack?)
    ensures Ordered(c, Apply(c, s, step))
  {
    var s' := Apply(c, s, step);
    assert forall i | 0 <= i < 5 :: s'.deps[i].phase.Closed? <==> s.deps[i].phase.Closed?;
  }

  lemma OrderedKeptByBlockWriter(c: Config, s: State, step: Step)
    requires Shape(c, s) && Enabled(c, s, step) && (step.Tick? || step.Ask? || step.WriteBlock? || step.FinishBlocks?)
    ensures Ordered(c, Apply(c, s, step))
  {
    var s' := Apply(c, s, step);
    assert forall i | 0 <= i < 5 :: s'.deps[i].phase.Closed? <==> s.deps[i].phase.Closed?;
  }

  lemma OrderedKept(c: Config, s: State, step: Step)
    requires ValidConfig(c) && Shape(c, s) && Enabled(c, s, step)
    ensures Ordered(c, Apply(c, s, step))
  {
    if step.Dispatch? {
      OrderedKeptByDispatch(c, s);
    } else if step.Claim? || step.Skip? || step.SendDoc? || step.SendBlock? {
      OrderedKeptByMiner(c, s, step);
    } else if step.WriteDoc? || step.FinishDocs? || step.Ack? {
      OrderedKeptByDependent(c, s, step);
    } else {
      OrderedKeptByBlockWriter(c, s, step);
    }
  }

  ghost predicate Kept(s: State, d: Doc) {
    d in s.db.docs || (d.kind < |s.deps| && Buffered(s.deps[d.kind], d))
  }

  // A document that reached a dependent writer is never lost.
  lemma KeptStays(c: Config, s: State, step: Step, d: Doc)
    requires Shape(c, s) && Enabled(c, s, step) && Kept(s, d)
    requires forall i, x | 0 <= i < |s.deps| && Buffered(s.deps[i], x) :: x.kind == i
    ensures Kept(Apply(c, s, step), d)
  {
  }

  // What a miner has dealt with after a step it had dealt with before, or it is the
  // document of the step.
  lemma DealtSplit(c: Config, s: State, step: Step, m: nat, d: Doc)
    requires ValidConfig(c) && Ordered(c, s) && Enabled(c, s, step) && Dealt(c, Apply(c, s, step), m, d)
    ensures Dealt(c, s, m, d) || ((step == SendDoc(m) || step == Skip(m)) && AtDoc(c, s, m) && d == CurrentDoc(c, s, m))
  {
    if (step == SendDoc(m) || step == Skip(m)) {
      var docs, p := c.docs(s.miners[m].h), s.miners[m].pos;
      assert docs[..p + 1] == docs[..p] + [docs[p]];
    }
  }

  lemma DealtStays(c: Config, s: State, step: Step, m: nat, d: Doc)
    requires ValidConfig(c) && Ordered(c, s) && Enabled(c, s, step) && Dealt(c, s, m, d)
    ensures Dealt(c, Apply(c, s, step), m, d) || step == SendBlock(m)
  {
    if (step == SendDoc(m) || step == Skip(m)) {
      var docs, p := c.docs(s.miners[m].h), s.miners[m].pos;
      assert docs[..p + 1] == docs[..p] + [docs[p]];
    }
  }

  lemma SentKept(c: Config, s: State, step: Step)
    requires ValidConfig(c) && Safe(c, s) && Enabled(c, s, step)
    ensures Sent(c, Apply(c, s, step))
  {
    var s' := Apply(c, s, step);
    forall m, d | Dealt(c, s', m, d) && d.kind != ACCTOKENS
      ensures d in s'.db.docs || (d.kind < |s'.deps| && Buffered(s'.deps[d.kind], d))
    {
      DealtSplit(c, s, step, m, d);
      if Dealt(c, s, m, d) { KeptStays(c, s, step, d); }
    }
  }

  // The last ack: nobody is left in the round, so nothing was due.
  lemma DueStaysByAck(c: Config, s: State, step: Step, d: Doc)
    requires Shape(c, s) && Enabled(c, s, step) && step.Ack? && Due(s, d)
    ensures Due(Apply(c, s, step), d)
  {
    BarrierKept(c, s, step);
    assert d.kind != step.dep;
    assert InRound(Apply(c, s, step).deps[d.kind]);
  }

  lemma DueStaysByDependent(c: Config, s: State, step: Step, d: Doc)
    requires Shape(c, s) && Enabled(c, s, step) && (step.SendDoc? || step.WriteDoc? || step.FinishDocs?) && Due(s, d)
    ensures d in Apply(c, s, step).db.docs || Due(Apply(c, s, step), d)
  {
  }

  lemma DueStaysByAsk(c: Config, s: State, d: Doc)
    requires Shape(c, s) && Enabled(c, s, Ask) && Due(s, d)
    ensures Due(Apply(c, s, Ask), d)
  {
    assert d.kind == s.block.phase.dep ==> s.deps[d.kind].buf != [];
  }

  lemma DueStaysByDispatch(c: Config, s: State, d: Doc)
    requires ValidConfig(c) && Shape(c, s) && CanDispatch(c, s) && Due(s, d)
    ensures Due(ApplyDispatch(c, s), d)
  {
  }

  // What is due becomes written or stays due.
  lemma DueStays(c: Config, s: State, step: Step, d: Doc)
    requires ValidConfig(c) && Shape(c, s) && Enabled(c, s, step) && Due(s, d)
    ensures d in Apply(c, s, step).db.docs || Due(Apply(c, s, step), d)
  {
    match step
    case Dispatch => DueStaysByDispatch(c, s, d);
    case Ask => DueStaysByAsk(c, s, d);
    case Ack(_) => DueStaysByAck(c, s, step, d);
    case SendDoc(_) => DueStaysByDependent(c, s, step, d);
    case WriteDoc(_, _) => DueStaysByDependent(c, s, step, d);
    case FinishDocs(_) => DueStaysByDependent(c, s, step, d);
    case _ =>
  }

  // The block writer accepts a block only when its miner has dealt with all of it.
  lemma DueOnArrival(c: Config, s: State, m: nat, h: Height, d: Doc)
    requires ValidConfig(c) && Safe(c, s) && Enabled(c, s, SendBlock(m))
    requires h == s.miners[m].h && d in c.docs(h) && d.kind != ACCTOKENS
    ensures d in s.db.docs || Due(Apply(c, s, SendBlock(m)), d)
  {
    assert c.docs(h)[..s.miners[m].pos] == c.docs(h);
    assert Dealt(c, s, m, d);
  }

  lemma InHandSplit(c: Config, s: State, step: Step, h: Height)
    requires Shape(c, s) && Enabled(c, s, step) && InHand(Apply(c, s, step).block, h)
    ensures InHand(s.block, h) || (step.SendBlock? && Holds(s, step.m, h) && !Holds(Apply(c, s, step), step.m, h))
  {
  }

  lemma BackedKept(c: Config, s: State, step: Step)
    requires ValidConfig(c) && Safe(c, s) && Enabled(c, s, step)
    ensures Backed(c, Apply(c, s, step))
  {
    var s' := Apply(c, s, step);
    forall h, d | InHand(s'.block, h) && d in c.docs(h) && d.kind != ACCTOKENS
      ensures d in s'.db.docs || Due(s', d)
    {
      InHandSplit(c, s, step, h);
      if !InHand(s.block, h) {
        DueOnArrival(c, s, step.m, h, d);
      } else if d in s.db.docs {
        assert d in s'.db.docs;
      } else {
        DueStays(c, s, step, d);
      }
    }
  }

  lemma MinerSourceStays(c: Config, s: State, step: Step, i: nat, d: Doc, m: nat)
    requires ValidConfig(c) && Shape(c, s) && Enabled(c, s, step) && Dealt(c, s, m, d)
    ensures HasSource(c, Apply(c, s, step), i, d)
  {
    var s' := Apply(c, s, step);
    DealtStays(c, s, step, m, d);
    if step == SendBlock(m) {
      assert InHand(s'.block, s.miners[m].h);
    } else {
      assert Dealt(c, s', m, d);
    }
  }

  lemma FlushedStays(c: Config, s: State, step: Step, i: nat, d: Doc)
    requires ValidConfig(c) && Shape(c, s) && Enabled(c, s, step) && i < |s.deps| && !Flushed(s, i)
    requires Buffered(Apply(c, s, step).deps[i], d) && (step.Ask? || step.Ack? || step.FinishDocs?)
    ensures !Flushed(Apply(c, s, step), i)
  {
    BarrierKept(c, s, step);
  }

  // A round flushes dependent i only once nothing is left waiting there.
  lemma BlockSourceStays(c: Config, s: State, step: Step, i: nat, d: Doc, h: Height)
    requires ValidConfig(c) && Shape(c, s) && Enabled(c, s, step) && i < |s.deps|
    requires !Flushed(s, i) && InHand(s.block, h) && d in c.docs(h)
    requires Buffered(Apply(c, s, step).deps[i], d)
    ensures HasSource(c, Apply(c, s, step), i, d)
  {
    var s' := Apply(c, s, step);
    if step.Ask? || step.Ack? || step.FinishDocs? {
      FlushedStays(c, s, step, i, d);
      assert InHand(s'.block, h);
    } else {
      assert InHand(s'.block, h) && !Flushed(s', i);
    }
  }

  lemma BufferedSplit(c: Config, s: State, step: Step, i: nat, d: Doc)
    requires Shape(c, s) && Enabled(c, s, step) && i < |s.deps| && Buffered(Apply(c, s, step).deps[i], d)
    ensures Buffered(s.deps[i], d) || (step.SendDoc? && d == CurrentDoc(c, s, step.m) && d.kind == i)
  {
  }

  lemma SourcedKept(c: Config, s: State, step: Step)
    requires ValidConfig(c) && Safe(c, s) && Enabled(c, s, step)
    ensures Sourced(c, Apply(c, s, step))
  {
    var s' := Apply(c, s, step);
    forall i, d | 0 <= i < |s'.deps| && Buffered(s'.deps[i], d)
      ensures d.kind == i && HasSource(c, s', i, d)
    {
      BufferedSplit(c, s, step, i, d);
      SourceOf(c, s, step, i, d);
    }
  }

  lemma SentSource(c: Config, s: State, m: nat, i: nat)
    requires ValidConfig(c) && Shape(c, s) && Enabled(c, s, SendDoc(m))
    ensures HasSource(c, Apply(c, s, SendDoc(m)), i, CurrentDoc(c, s, m))
  {
    var docs, p := c.docs(s.miners[m].h), s.miners[m].pos;
    assert docs[..p + 1] == docs[..p] + [docs[p]];
    assert Dealt(c, Apply(c, s, SendDoc(m)), m, CurrentDoc(c, s, m));
  }

  lemma SourceOf(c: Config, s: State, step: Step, i: nat, d: Doc)
    requires ValidConfig(c) && Shape(c, s) && Sourced(c, s) && Enabled(c, s, step) && i < |s.deps|
    requires Buffered(Apply(c, s, step).deps[i], d)
    requires Buffered(s.deps[i], d) || (step.SendDoc? && d == CurrentDoc(c, s, step.m) && d.kind == i)
    ensures d.kind == i && HasSource(c, Apply(c, s, step), i, d)
  {
    if Buffered(s.deps[i], d) {
      assert HasSource(c, s, i, d);
      if FromMiner(c, s, d) {
        var m: nat :| Dealt(c, s, m, d);
        MinerSourceStays(c, s, step, i, d, m);
      } else {
        var h :| InHand(s.block, h) && d in c.docs(h);
        BlockSourceStays(c, s, step, i, d, h);
      }
    } else {
      SentSource(c, s, step.m, i);
    }
  }

  lemma ConsistentKept(c: Config, s: State, step: Step)
    requires ValidConfig(c) && Safe(c, s) && Enabled(c, s, step)
    ensures Consistent(c, Apply(c, s, step).db)
  {
  }

  lemma HoldsStays(c: Config, s: State, step: Step, m: nat, h: Height)
    requires ValidConfig(c) && Ordered(c, s) && Enabled(c, s, step) && Holds(s, m, h)
    ensures Holds(Apply(c, s, step), m, h) || InHand(Apply(c, s, step).block, h)
  {
  }

  lemma TrackedKept(c: Config, s: State, step: Step)
    requires ValidConfig(c) && Safe(c, s) && Enabled(c, s, step)
    ensures Tracked(c, Apply(c, s, step))
  {
    var s' := Apply(c, s, step);
    forall k | 0 <= k < Fed(c, s')
      ensures var h := c.jobs[k].height; h in s'.db.blocks || InHand(s'.block, h) || SomeoneHolds(s', h)
    {
      var h := c.jobs[k].height;
      if k < Fed(c, s) {
        if m: nat :| Holds(s, m, h) {
          HoldsStays(c, s, step, m, h);
        }
      } else {
        assert Holds(s', c.jobs[k].channel, h);
      }
    }
  }
}
