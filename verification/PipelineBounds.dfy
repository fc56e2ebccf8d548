// When a writer flushes: how full buffers get, and what makes a writer commit.

module PipelineBounds {
  import opened Wrappers
  import opened Pipeline

  // The documents a buffer holds at most: bulkSize, or one where that is not positive.
  function Cap(c: Config): nat {
    if c.bulkSize > 1 then c.bulkSize else 1
  }

  ghost predicate Bounded(c: Config, s: State) {
    |s.block.buf| <= Cap(c) && forall i | 0 <= i < |s.deps| :: |s.deps[i].buf| <= Cap(c)
  }

  lemma BoundedStep(c: Config, s: State, step: Step)
    requires Bounded(c, s) && Enabled(c, s, step)
    ensures Bounded(c, Apply(c, s, step))
  {
  }

  lemma {:induction false} BoundedRun(c: Config, s: State, steps: seq<Step>)
    requires Bounded(c, s) && Runs(c, s, steps)
    ensures Bounded(c, After(c, s, steps))
    decreases |steps|
  {
    if steps != [] {
      BoundedStep(c, s, steps[0]);
      BoundedRun(c, Apply(c, s, steps[0]), steps[1..]);
    }
  }

  // In every reachable state no buffer holds more than that.
  lemma BuffersBounded(c: Config, db0: Db, ticks: nat, steps: seq<Step>)
    requires Runs(c, Init(c, db0, ticks), steps)
    ensures var s := After(c, Init(c, db0, ticks), steps);
            |s.block.buf| <= Cap(c) && forall i | 0 <= i < |s.deps| :: |s.deps[i].buf| <= Cap(c)
  {
    BoundedRun(c, Init(c, db0, ticks), steps);
  }

  // A block starts the barrier exactly when the buffer is full, and waits for it to be over;
  // otherwise it is buffered and nothing is written.
  lemma BlockFlushIff(c: Config, s: State, m: nat)
    requires Enabled(c, s, SendBlock(m))
    ensures var s', h := Apply(c, s, SendBlock(m)), s.miners[m].h;
            && (s'.block.phase.Asking? <==> |s.block.buf| >= Cap(c))
            && (|s.block.buf| >= Cap(c) ==> s'.block == BlockWriter(Asking(0), s.block.buf, Some(h)))
            && (|s.block.buf| < Cap(c) ==> s'.block == BlockWriter(Receiving, s.block.buf + [h], s.block.held))
            && s'.deps == s.deps && s'.db == s.db
  {
  }

  // A document makes its own writer commit exactly when that buffer is full.
  lemma DocFlushIff(c: Config, s: State, m: nat)
    requires Enabled(c, s, SendDoc(m))
    ensures var s', d := Apply(c, s, SendDoc(m)), CurrentDoc(c, s, m);
            var w := s.deps[d.kind];
            && s'.deps[d.kind]
               == (if |w.buf| >= Cap(c) then DocWriter(Flushing(d), w.buf) else DocWriter(Ready, w.buf + [d]))
            && (forall i | 0 <= i < |s.deps| && i != d.kind :: s'.deps[i] == s.deps[i])
            && s'.block == s.block && s'.db == s.db
  {
  }

  // A Commit, from the timer or forced, starts the barrier exactly when blocks wait; with
  // none it changes nothing.
  lemma CommitStartsIff(c: Config, s: State, step: Step)
    requires Enabled(c, s, step) && (step.Tick? || (step.Dispatch? && s.dispatcher.Forcing?))
    ensures var s' := Apply(c, s, step);
            && (s'.block.phase.Asking? <==> s.block.buf != [])
            && s'.block.buf == s.block.buf && s'.block.held == s.block.held
            && (s.block.buf == [] ==> s'.block == s.block)
            && s'.deps == s.deps && s'.db == s.db && s'.miners == s.miners
  {
  }

  // A dependent that is asked acks at once exactly when nothing waits with it.
  lemma AskedAcksIff(c: Config, s: State)
    requires Enabled(c, s, Ask)
    ensures var i, s' := s.block.phase.dep, Apply(c, s, Ask);
            && s'.deps[i] == DocWriter(if s.deps[i].buf == [] then Acking else Syncing, s.deps[i].buf)
            && (forall j | 0 <= j < |s.deps| && j != i :: s'.deps[j] == s.deps[j])
            && s'.db == s.db
  {
  }

  // Commits write what is buffered and nothing else, once each.
  lemma WritesBuffered(c: Config, s: State, step: Step)
    requires Enabled(c, s, step)
    ensures var s' := Apply(c, s, step);
            && (forall h :: h in s'.db.blocks <==>
                  h in s.db.blocks || (step.WriteBlock? && s.block.buf[step.j] == h))
            && (forall d :: d in s'.db.docs <==>
                  d in s.db.docs || (step.WriteDoc? && s.deps[step.dep].buf[step.j] == d))
            && (step.WriteBlock? ==> multiset(s.block.buf) == multiset(s'.block.buf) + multiset{s.block.buf[step.j]})
            && (step.WriteDoc? ==>
                  multiset(s.deps[step.dep].buf)
                  == multiset(s'.deps[step.dep].buf) + multiset{s.deps[step.dep].buf[step.j]})
  {
    if step.WriteBlock? { Removed(s.block.buf, step.j); }
    if step.WriteDoc? { Removed(s.deps[step.dep].buf, step.j); }
  }

  lemma Removed<T>(s: seq<T>, j: nat)
    requires j < |s|
    ensures multiset(s) == multiset(s[..j] + s[j + 1..]) + multiset{s[j]}
  {
    assert s == s[..j] + [s[j]] + s[j + 1..];
  }
}
