// The bulk writer as a class and the writers of the pipeline agree: each message that the
// class receives in one call is a run of the transition system.

module BulkRefinement {
  import opened Pipeline
  import opened BulkIndexer

  function IdsOf<V>(docs: seq<Entry<Doc, V>>): (r: seq<Doc>)
    ensures |r| == |docs| && forall k | 0 <= k < |docs| :: r[k] == docs[k].id
  {
    seq(|docs|, k requires 0 <= k < |docs| => docs[k].id)
  }

  function SetOf(docs: seq<Doc>): set<Doc> {
    set d <- docs
  }

  // Writer i of s waits for a message; its buffer and its index are those of w.
  ghost predicate Represents<V>(s: State, i: Kind, w: Writer<Doc, V>) {
    && i < |s.deps|
    && s.deps[i].buf == IdsOf(w.bulk)
    && forall d: Doc | d.kind == i :: d in s.db.docs <==> d in w.index
  }

  lemma CreatedIds<V>(index: map<Doc, V>, docs: seq<Entry<Doc, V>>, d: Doc)
    ensures d in Created(index, docs) <==> d in index || d in IdsOf(docs)
  {
    CreatedIs(index, docs, d);
    if forall k: nat :: !FirstAt(docs, d, k) {
      NoFirst(docs, |docs|, d);
    } else {
      var k: nat :| FirstAt(docs, d, k);
      assert IdsOf(docs)[k] == d;
    }
  }

  // ---------------------------------------------------------------- writing a buffer

  function Flush(i: nat, n: nat): seq<Step> {
    if n == 0 then [FinishDocs(i)] else [WriteDoc(i, 0)] + Flush(i, n - 1)
  }

  function Flushed(s: State, i: nat): State
    requires i < |s.deps|
  {
    s.(db := s.db.(docs := s.db.docs + SetOf(s.deps[i].buf)),
       deps := s.deps[i := if s.deps[i].phase.Flushing? then DocWriter(Ready, [s.deps[i].phase.held])
                           else DocWriter(Acking, [])])
  }

  lemma Prepend(c: Config, s: State, step: Step, steps: seq<Step>)
    requires Enabled(c, s, step) && Runs(c, Apply(c, s, step), steps)
    ensures Runs(c, s, [step] + steps)
    ensures After(c, s, [step] + steps) == After(c, Apply(c, s, step), steps)
  {
    assert ([step] + steps)[1..] == steps;
  }

  lemma FlushedStep(c: Config, s: State, i: nat)
    requires Enabled(c, s, WriteDoc(i, 0))
    ensures Flushed(Apply(c, s, WriteDoc(i, 0)), i) == Flushed(s, i)
  {
    var s' := Apply(c, s, WriteDoc(i, 0));
    assert SetOf(s.deps[i].buf) == {s.deps[i].buf[0]} + SetOf(s'.deps[i].buf);
    assert Flushed(s', i).db.docs == Flushed(s, i).db.docs;
    assert Flushed(s', i).deps == Flushed(s, i).deps;
  }

  lemma FinishRuns(c: Config, s: State, i: nat)
    requires i < |s.deps| && (s.deps[i].phase.Flushing? || s.deps[i].phase.Syncing?) && s.deps[i].buf == []
    ensures Runs(c, s, [FinishDocs(i)]) && After(c, s, [FinishDocs(i)]) == Flushed(s, i)
  {
    Prepend(c, s, FinishDocs(i), []);
    assert SetOf(s.deps[i].buf) == {};
    assert Apply(c, s, FinishDocs(i)).deps == Flushed(s, i).deps;
  }

  lemma {:induction false} FlushRuns(c: Config, s: State, i: nat)
    requires i < |s.deps| && (s.deps[i].phase.Flushing? || s.deps[i].phase.Syncing?)
    ensures Runs(c, s, Flush(i, |s.deps[i].buf|))
    ensures After(c, s, Flush(i, |s.deps[i].buf|)) == Flushed(s, i)
    decreases |s.deps[i].buf|
  {
    if s.deps[i].buf == [] {
      FinishRuns(c, s, i);
    } else {
      var s' := Apply(c, s, WriteDoc(i, 0));
      assert s'.deps[i].buf == s.deps[i].buf[1..] && s'.deps[i].phase == s.deps[i].phase;
      FlushRuns(c, s', i);
      Prepend(c, s, WriteDoc(i, 0), Flush(i, |s'.deps[i].buf|));
      FlushedStep(c, s, i);
    }
  }

  // ---------------------------------------------------------------- messages

  // From s to s', writer i has come to w and nothing else has changed but, it may be, the
  // miners and the block writer.
  ghost predicate Answered<V>(s: State, s': State, i: Kind, w: Writer<Doc, V>) {
    && Represents(s', i, w)
    && i < |s.deps| == |s'.deps|
    && (forall j | 0 <= j < |s.deps| && j != i :: s'.deps[j] == s.deps[j])
    && (forall d: Doc | d.kind != i :: d in s'.db.docs <==> d in s.db.docs)
    && s'.db.blocks == s.db.blocks && s'.cache == s.cache && s'.dispatcher == s.dispatcher && s'.ticks == s.ticks
  }

  lemma WrittenContent<V>(s: State, i: Kind, w: Writer<Doc, V>)
    requires Represents(s, i, w)
    ensures forall d: Doc | d.kind == i :: d in s.db.docs + SetOf(s.deps[i].buf) <==> d in Content(w)
  {
    forall d: Doc | d.kind == i
      ensures d in s.db.docs + SetOf(s.deps[i].buf) <==> d in Content(w)
    {
      CreatedIds(w.index, w.bulk, d);
    }
  }

  // The ids that a writer buffers belong to its index.
  ghost predicate OwnKind(s: State) {
    forall i: Kind, d | i < |s.deps| && d in s.deps[i].buf :: d.kind == i
  }

  function AddSteps(c: Config, s: State, m: nat): seq<Step>
    requires Enabled(c, s, SendDoc(m))
  {
    var w := s.deps[CurrentDoc(c, s, m).kind];
    [SendDoc(m)] + if Accept(w, CurrentDoc(c, s, m), c.bulkSize).phase.Flushing?
                   then Flush(CurrentDoc(c, s, m).kind, |w.buf|) else []
  }

  lemma AddAnswers<V>(c: Config, s: State, m: nat, w: Writer<Doc, V>, v: V)
    requires Enabled(c, s, SendDoc(m)) && OwnKind(s) && Represents(s, CurrentDoc(c, s, m).kind, w)
    ensures var d, t := CurrentDoc(c, s, m), Apply(c, s, SendDoc(m));
            Answered(s, if t.deps[d.kind].phase.Flushing? then Flushed(t, d.kind) else t, d.kind,
                     Received(w, Add(Entry(d, v)), c.bulkSize))
  {
    var i := CurrentDoc(c, s, m).kind;
    assert s.deps[i].buf == [] <==> w.bulk == [];
    WrittenContent(s, i, w);
  }

  // Sending a document to a writer is a run to where the writer waits again.
  lemma AddRefines<V>(c: Config, s: State, m: nat, w: Writer<Doc, V>, v: V)
    requires Enabled(c, s, SendDoc(m)) && OwnKind(s) && Represents(s, CurrentDoc(c, s, m).kind, w)
    ensures Runs(c, s, AddSteps(c, s, m))
    ensures var d, s' := CurrentDoc(c, s, m), After(c, s, AddSteps(c, s, m));
            && Answered(s, s', d.kind, Received(w, Add(Entry(d, v)), c.bulkSize))
            && s'.deps[d.kind].phase.Ready?
            && s'.block == s.block
            && s'.miners == s.miners[m := Mining(s.miners[m].h, s.miners[m].pos + 1)]
  {
    var d := CurrentDoc(c, s, m);
    var t := Apply(c, s, SendDoc(m));
    AddAnswers(c, s, m, w, v);
    if t.deps[d.kind].phase.Flushing? {
      FlushRuns(c, t, d.kind);
      Prepend(c, s, SendDoc(m), Flush(d.kind, |t.deps[d.kind].buf|));
    } else {
      Prepend(c, s, SendDoc(m), []);
    }
  }

  function CommitSteps(s: State, i: Kind): seq<Step>
    requires i < |s.deps|
  {
    [Ask] + if s.deps[i].buf == [] then [] else Flush(i, |s.deps[i].buf|)
  }

  // So is the block writer's Commit, up to the acknowledgement.
  lemma CommitRefines<V>(c: Config, s: State, i: Kind, w: Writer<Doc, V>)
    requires Enabled(c, s, Ask) && s.block.phase.dep == i && OwnKind(s) && Represents(s, i, w)
    ensures Runs(c, s, CommitSteps(s, i))
    ensures var s' := After(c, s, CommitSteps(s, i));
            && Answered(s, s', i, Received(w, Message<Doc, V>.Commit, c.bulkSize))
            && s'.deps[i] == DocWriter(Acking, [])
            && s'.block == s.block.(phase := if i + 1 < |s.deps| then Asking(i + 1) else Collecting(0))
            && s'.miners == s.miners
  {
    var t := Apply(c, s, Ask);
    WrittenContent(s, i, w);
    if t.deps[i].phase.Syncing? {
      FlushRuns(c, t, i);
      Prepend(c, s, Ask, Flush(i, |t.deps[i].buf|));
    } else {
      Prepend(c, s, Ask, []);
      assert SetOf(s.deps[i].buf) == {};
    }
  }
}
