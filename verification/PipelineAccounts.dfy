// Account-token documents are deduplicated by an in-memory cache, so a committed block
// may rest on a document that another height still has to deliver. This module follows
// those claims, and says where every height and document of a run comes from.

module PipelineAccounts {
  import opened Chain
  import opened Sequences
  import opened Pipeline
  import opened PipelineSafety

  // ---------------------------------------------------------------- claims

  ghost predicate SomeoneClaims(c: Config, s: State, d: Doc) {
    exists m :: Claiming(c, s, m, d)
  }

  // A cached id is in the database, in the account-token buffer, or about to be sent.
  ghost predicate CacheBacked(c: Config, s: State) {
    |s.deps| == 5 && forall d | d in s.cache ::
      d.kind == ACCTOKENS
      && (d in s.db.docs || Buffered(s.deps[ACCTOKENS], d) || SomeoneClaims(c, s, d))
  }

  ghost predicate CacheFilled(c: Config, s: State) {
    && (forall m, d | Dealt(c, s, m, d) && d.kind == ACCTOKENS :: d in s.cache)
    && (forall m, d | Claiming(c, s, m, d) :: d in s.cache)
  }

  ghost predicate AllCached(c: Config, s: State, h: Height) {
    forall d | d in c.docs(h) && d.kind == ACCTOKENS :: d in s.cache
  }

  ghost predicate CacheComplete(c: Config, s: State) {
    forall k | 0 <= k < Fed(c, s) :: SomeoneHolds(s, c.jobs[k].height) || AllCached(c, s, c.jobs[k].height)
  }

  ghost predicate Claims(c: Config, s: State) {
    && CacheBacked(c, s)
    && CacheFilled(c, s)
    && CacheComplete(c, s)
  }

  lemma CacheBackedKept(c: Config, s: State, step: Step)
    requires ValidConfig(c) && Safe(c, s) && Claims(c, s) && Enabled(c, s, step)
    ensures CacheBacked(c, Apply(c, s, step))
  {
    var s' := Apply(c, s, step);
    forall d | d in s'.cache
      ensures d.kind == ACCTOKENS
      ensures d in s'.db.docs || Buffered(s'.deps[ACCTOKENS], d) || SomeoneClaims(c, s', d)
    {
      if d !in s.cache {
        assert Claiming(c, s', step.m, d);
      } else if Kept(s, d) {
        KeptStays(c, s, step, d);
      } else {
        var m: nat :| Claiming(c, s, m, d);
        if step != SendDoc(m) {
          assert Claiming(c, s', m, d);
        }
      }
    }
  }

  lemma CacheFilledKept(c: Config, s: State, step: Step)
    requires ValidConfig(c) && Safe(c, s) && Claims(c, s) && Enabled(c, s, step)
    ensures CacheFilled(c, Apply(c, s, step))
  {
    var s' := Apply(c, s, step);
    forall m, d | Dealt(c, s', m, d) && d.kind == ACCTOKENS
      ensures d in s'.cache
    {
      DealtSplit(c, s, step, m, d);
      assert step == SendDoc(m) && AtDoc(c, s, m) && d == CurrentDoc(c, s, m) ==> Claiming(c, s, m, d);
    }
    forall m, d | Claiming(c, s', m, d)
      ensures d in s'.cache
    {
      assert step == Claim(m) || Claiming(c, s, m, d);
    }
  }

  lemma CacheCompleteKept(c: Config, s: State, step: Step)
    requires ValidConfig(c) && Safe(c, s) && Claims(c, s) && Enabled(c, s, step)
    ensures CacheComplete(c, Apply(c, s, step))
  {
    var s' := Apply(c, s, step);
    forall k | 0 <= k < Fed(c, s')
      ensures SomeoneHolds(s', c.jobs[k].height) || AllCached(c, s', c.jobs[k].height)
    {
      var h := c.jobs[k].height;
      if k >= Fed(c, s) {
        assert Holds(s', c.jobs[k].channel, h);
      } else if m: nat :| Holds(s, m, h) {
        if step == SendBlock(m) {
          assert c.docs(h)[..s.miners[m].pos] == c.docs(h);
          assert forall d | d in c.docs(h) :: Dealt(c, s, m, d);
        } else {
          assert Holds(s', m, h);
        }
      }
    }
  }

  // ---------------------------------------------------------------- each height once

  lemma DistinctWithout<T(!new)>(s: seq<T>, j: nat)
    requires j < |s| && Distinct(s)
    ensures Distinct(RemoveAt(s, j)) && s[j] !in RemoveAt(s, j)
  {
    var r := RemoveAt(s, j);
    assert r == s[..j] + s[j + 1..];
    assert forall k | 0 <= k < |r| :: r[k] == if k < j then s[k] else s[k + 1];
  }

  // The dispatch list names each height once.
  ghost predicate SingleJobs(c: Config) {
    forall a, b | 0 <= a < b < |c.jobs| :: c.jobs[a].height != c.jobs[b].height
  }

  // A height is not yet dispatched, with one miner, in the block writer once, or committed
  // by this run; the database may have had it before.
  ghost predicate Fresh(c: Config, db0: Db, s: State) {
    && (forall m, n, h | Holds(s, m, h) && Holds(s, n, h) :: m == n)
    && (forall m, h | Holds(s, m, h) :: !InHand(s.block, h) && New(db0, s, h))
    && (forall h | InHand(s.block, h) :: New(db0, s, h))
    && Distinct(s.block.buf)
    && (s.block.held.Some? ==> s.block.held.value !in s.block.buf)
    && (forall k | Fed(c, s) <= k < |c.jobs| ::
          var h := c.jobs[k].height;
          !SomeoneHolds(s, h) && !InHand(s.block, h) && New(db0, s, h))
    && SingleJobs(c)
  }

  predicate New(db0: Db, s: State, h: Height) {
    h in s.db.blocks ==> h in db0.blocks
  }

  lemma HoldsSplit(c: Config, s: State, step: Step, m: nat, h: Height)
    requires ValidConfig(c) && Ordered(c, s) && Enabled(c, s, step) && Holds(Apply(c, s, step), m, h)
    ensures Holds(s, m, h)
            || (step == Dispatch && Fed(c, s) < |c.jobs| && Fed(c, Apply(c, s, step)) == Fed(c, s) + 1
                && c.jobs[Fed(c, s)] == Job(m, h) && s.dispatcher.Feeding?)
  {
  }

  lemma CommittedSplit(c: Config, s: State, step: Step, h: Height)
    requires Shape(c, s) && Enabled(c, s, step) && h in Apply(c, s, step).db.blocks
    ensures h in s.db.blocks || (step.WriteBlock? && h == s.block.buf[step.j])
  {
  }

  lemma FreshBlocks(c: Config, db0: Db, s: State, step: Step)
    requires ValidConfig(c) && Shape(c, s) && Fresh(c, db0, s) && Enabled(c, s, step)
    ensures var s' := Apply(c, s, step);
            && Distinct(s'.block.buf)
            && (s'.block.held.Some? ==> s'.block.held.value !in s'.block.buf)
            && (forall h | InHand(s'.block, h) :: New(db0, s', h))
  {
    if step.SendBlock? {
      assert Holds(s, step.m, s.miners[step.m].h);
    } else if step.WriteBlock? {
      DistinctWithout(s.block.buf, step.j);
    }
    var s' := Apply(c, s, step);
    forall h | InHand(s'.block, h)
      ensures New(db0, s', h)
    {
      InHandSplit(c, s, step, h);
      if h in s'.db.blocks { CommittedSplit(c, s, step, h); }
    }
  }

  lemma FreshMiners(c: Config, db0: Db, s: State, step: Step)
    requires ValidConfig(c) && Shape(c, s) && Fresh(c, db0, s) && Enabled(c, s, step)
    ensures var s' := Apply(c, s, step);
            && (forall m, n, h | Holds(s', m, h) && Holds(s', n, h) :: m == n)
            && (forall m, h | Holds(s', m, h) :: !InHand(s'.block, h) && New(db0, s', h))
  {
    var s' := Apply(c, s, step);
    forall m, n, h | Holds(s', m, h) && Holds(s', n, h)
      ensures m == n
    {
      HoldsSplit(c, s, step, m, h);
      HoldsSplit(c, s, step, n, h);
    }
    forall m, h | Holds(s', m, h)
      ensures !InHand(s'.block, h) && New(db0, s', h)
    {
      HoldsSplit(c, s, step, m, h);
      if InHand(s'.block, h) { InHandSplit(c, s, step, h); }
      if h in s'.db.blocks { CommittedSplit(c, s, step, h); }
    }
  }

  lemma FreshKept(c: Config, db0: Db, s: State, step: Step)
    requires ValidConfig(c) && Shape(c, s) && Fresh(c, db0, s) && Enabled(c, s, step)
    ensures Fresh(c, db0, Apply(c, s, step))
  {
    var s' := Apply(c, s, step);
    FreshBlocks(c, db0, s, step);
    FreshMiners(c, db0, s, step);
    forall k | Fed(c, s') <= k < |c.jobs|
      ensures var h := c.jobs[k].height; !SomeoneHolds(s', h) && !InHand(s'.block, h) && New(db0, s', h)
    {
      var h := c.jobs[k].height;
      if m: nat :| Holds(s', m, h) { HoldsSplit(c, s, step, m, h); assert SomeoneHolds(s, h); }
      if InHand(s'.block, h) { InHandSplit(c, s, step, h); assert SomeoneHolds(s, h); }
      if h in s'.db.blocks { CommittedSplit(c, s, step, h); }
    }
  }

  // ---------------------------------------------------------------- nothing else

  ghost predicate IsJob(c: Config, h: Height) {
    exists k :: 0 <= k < |c.jobs| && c.jobs[k].height == h
  }

  ghost predicate FromJob(c: Config, d: Doc) {
    exists h :: IsJob(c, h) && d in c.docs(h)
  }

  // The run writes nothing but the documents of its jobs, and deletes nothing.
  ghost predicate Within(c: Config, db0: Db, s: State) {
    && db0.blocks <= s.db.blocks && db0.docs <= s.db.docs
    && (forall h | SomeoneHolds(s, h) || InHand(s.block, h) :: IsJob(c, h))
    && (forall h | h in s.db.blocks :: h in db0.blocks || IsJob(c, h))
    && (forall d | d in s.db.docs :: d in db0.docs || FromJob(c, d))
  }

  lemma WithinKept(c: Config, db0: Db, s: State, step: Step)
    requires ValidConfig(c) && Safe(c, s) && Within(c, db0, s) && Enabled(c, s, step)
    ensures Within(c, db0, Apply(c, s, step))
  {
    var s' := Apply(c, s, step);
    forall h | SomeoneHolds(s', h) || InHand(s'.block, h)
      ensures IsJob(c, h)
    {
      if m: nat :| Holds(s', m, h) {
        HoldsSplit(c, s, step, m, h);
        if Holds(s, m, h) { assert SomeoneHolds(s, h); }
      } else {
        InHandSplit(c, s, step, h);
        if !InHand(s.block, h) { assert SomeoneHolds(s, h); }
      }
    }
    forall d | d in s'.db.docs
      ensures d in db0.docs || FromJob(c, d)
    {
      if d !in s.db.docs { BufferedFromJob(c, db0, s, step.dep, d); }
    }
  }

  lemma BufferedFromJob(c: Config, db0: Db, s: State, i: nat, d: Doc)
    requires Safe(c, s) && Within(c, db0, s) && i < |s.deps| && Buffered(s.deps[i], d)
    ensures FromJob(c, d)
  {
    assert HasSource(c, s, i, d);
    if m: nat :| Dealt(c, s, m, d) {
      assert Holds(s, m, s.miners[m].h);
      assert SomeoneHolds(s, s.miners[m].h);
    }
  }
}
