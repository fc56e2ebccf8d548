// Rewinds of indexer/run_onsync.go beside the one asynchronous miner of indexer/miner.go
// that the stream feeds over an unbuffered channel.

module Rewind {
  import opened Chain
  import opened Wrappers

  // The indices a rewind deletes from, in the order in which it does, and those it leaves.
  datatype Index = Tx | Name | TokenTransfer | Token | Nft | Kept

  // Documents carry the number of the block they come from.
  datatype Doc = Doc(index: Index, no: Height, id: string)
  datatype Block = Block(no: Height, id: string, docs: set<Doc>)

  // A height the miner holds: what the node returned for it, and how much is inserted.
  datatype Job = Job(no: Height, id: string, docs: seq<Doc>, pos: nat)

  datatype Stream =
    | Listening
    | Sending(next: Height, target: Height)  // next..target go to the miner
    | Deleting(target: Height, stage: nat)   // heights above target; stage indices are done

  // rewinds and tainted record the past: how many rewinds began, and which blocks the
  // miner held when one that deletes their height began.
  datatype State = State(last: Height, stream: Stream, miner: Option<Job>, blocks: set<Block>, docs: set<Doc>,
                         rewinds: nat, tainted: set<Block>)

  // When a rewind reaches an index, after the block index.
  function Turn(index: Index): nat {
    match index
    case Tx => 1
    case Name => 2
    case TokenTransfer => 3
    case Token => 4
    case Nft => 5
    case Kept => 6
  }

  datatype Step =
    | Receive(n: Height)                  // SyncBlock starts on block n
    | Send(id: string, docs: seq<Doc>)    // rendezvous with the miner; what the node returns for the height
    | DeleteNext                          // the next deleteByQuery
    | InsertDoc
    | InsertBlock

  predicate Enabled(s: State, step: Step) {
    match step
    case Receive(_) => s.stream.Listening?
    case Send(id, docs) =>
      s.stream.Sending? && s.miner.None? && forall i | 0 <= i < |docs| :: docs[i].no == s.stream.next
    case DeleteNext => s.stream.Deleting? && s.stream.stage <= 5
    case InsertDoc => s.miner.Some? && s.miner.value.pos < |s.miner.value.docs|
    case InsertBlock => s.miner.Some? && s.miner.value.pos == |s.miner.value.docs|
  }

  // The block that the miner inserts when all of its documents are.
  function BlockOf(job: Job): Block {
    Block(job.no, job.id, set d | d in job.docs)
  }

  // The block the miner holds that a rewind to n deletes.
  function Hit(s: State, n: Height): set<Block> {
    if s.miner.Some? && s.miner.value.no > n then {BlockOf(s.miner.value)} else {}
  }

  // The range deleted is (target, last]. What the miner still holds from before an earlier
  // rewind may lie above it.
  function Apply(s: State, step: Step): State
    requires Enabled(s, step)
  {
    match step
    case Receive(n) =>
      if n < s.last
      then s.(stream := Deleting(n, 0), tainted := s.tainted + Hit(s, n), rewinds := s.rewinds + 1)
      else s.(stream := Sending(if n > s.last + 1 then s.last + 1 else n, n))
    case Send(id, docs) =>
      var job := Job(s.stream.next, id, docs, 0);
      if s.stream.next == s.stream.target
      then s.(miner := Some(job), stream := Listening, last := s.stream.target)
      else s.(miner := Some(job), stream := Sending(s.stream.next + 1, s.stream.target))
    case DeleteNext =>
      var lo, k := s.stream.target, s.stream.stage;
      if k == 0
      then s.(stream := Deleting(lo, 1), blocks := set b | b in s.blocks && !(lo < b.no <= s.last))
      else
        var docs := set d | d in s.docs && !(Turn(d.index) == k && lo < d.no <= s.last);
        if k == 5
        then s.(stream := Listening, last := lo, docs := docs)
        else s.(stream := Deleting(lo, k + 1), docs := docs)
    case InsertDoc =>
      var job := s.miner.value;
      s.(docs := s.docs + {job.docs[job.pos]}, miner := Some(job.(pos := job.pos + 1)))
    case InsertBlock =>
      var job := s.miner.value;
      s.(blocks := s.blocks + {BlockOf(job)}, miner := None)
  }

  ghost predicate Runs(s: State, steps: seq<Step>)
    decreases |steps|
  {
    steps == [] || (Enabled(s, steps[0]) && Runs(Apply(s, steps[0]), steps[1..]))
  }

  ghost function After(s: State, steps: seq<Step>): State
    requires Runs(s, steps)
    decreases |steps|
  {
    if steps == [] then s else After(Apply(s, steps[0]), steps[1..])
  }

  // ---------------------------------------------------------------- what every step keeps

  // The highest height sent to the miner and not rewound.
  function Top(s: State): Height {
    if s.stream.Sending? && s.stream.next > s.last + 1 then s.stream.next - 1 else s.last
  }

  predicate AllowedBlock(s: State, b: Block, ceiling: Height) {
    b.no <= ceiling || b in s.tainted
  }

  ghost predicate AllowedDoc(s: State, d: Doc, ceiling: Height) {
    d.no <= ceiling || exists b :: b in s.tainted && d in b.docs
  }

  // Whether the rewind in progress has already been through the index.
  predicate Purged(s: State, index: Index) {
    s.stream.Deleting? && Turn(index) < s.stream.stage
  }

  ghost predicate Heights(s: State) {
    && (s.stream.Deleting? ==> s.stream.target <= s.last && s.stream.stage <= 5)
    && (s.stream.Sending? ==> s.last <= s.stream.next <= s.stream.target)
    && (s.miner.Some? ==>
          AllowedBlock(s, BlockOf(s.miner.value), if s.stream.Deleting? then s.stream.target else Top(s)))
    && (forall b | b in s.blocks ::
          AllowedBlock(s, b, if s.stream.Deleting? && s.stream.stage > 0 then s.stream.target else Top(s)))
    && (forall d | d in s.docs && !d.index.Kept? ::
          AllowedDoc(s, d, if Purged(s, d.index) then s.stream.target else Top(s)))
  }

  ghost predicate Numbered(s: State) {
    && (forall b, d | b in s.blocks && d in b.docs :: d.no == b.no)
    && (s.miner.Some? ==> s.miner.value.pos <= |s.miner.value.docs|
                          && forall d | d in s.miner.value.docs :: d.no == s.miner.value.no)
  }

  // Blocks have their documents, and the miner's insertions are there, except for what a
  // rewind deletes of a block that it found in the miner's hands.
  ghost predicate Intact(s: State) {
    && (forall b, d | b in s.blocks && d in b.docs && (b !in s.tainted || d.index.Kept?) :: d in s.docs)
    && (s.miner.Some? ==>
          forall i | 0 <= i < s.miner.value.pos <= |s.miner.value.docs|
                     && (BlockOf(s.miner.value) !in s.tainted || s.miner.value.docs[i].index.Kept?) ::
            s.miner.value.docs[i] in s.docs)
  }

  ghost predicate Inv(s: State) {
    Heights(s) && Numbered(s) && Intact(s) && |s.tainted| <= s.rewinds
  }

  lemma HeightsKeptByStream(s: State, step: Step)
    requires Inv(s) && Enabled(s, step) && (step.Receive? || step.Send?)
    ensures Heights(Apply(s, step))
  {
    var s' := Apply(s, step);
    assert s'.blocks == s.blocks && s'.docs == s.docs && s.tainted <= s'.tainted;
  }

  lemma HeightsKeptByDelete(s: State)
    requires Inv(s) && Enabled(s, DeleteNext)
    ensures Heights(Apply(s, DeleteNext))
  {
  }

  lemma HeightsKept(s: State, step: Step)
    requires Inv(s) && Enabled(s, step)
    ensures Heights(Apply(s, step))
  {
    match step
    case Receive(_) => HeightsKeptByStream(s, step);
    case Send(_, _) => HeightsKeptByStream(s, step);
    case DeleteNext => HeightsKeptByDelete(s);
    case _ =>
  }

  lemma NumberedKept(s: State, step: Step)
    requires Inv(s) && Enabled(s, step)
    ensures Numbered(Apply(s, step))
  {
  }

  // A rewind goes through the block index first, so no block that is left names a
  // document that the later indices lose.
  lemma IntactKept(s: State, step: Step)
    requires Inv(s) && Enabled(s, step)
    ensures Intact(Apply(s, step))
  {
  }

  lemma TaintBounded(s: State, step: Step)
    requires Inv(s) && Enabled(s, step)
    ensures |Apply(s, step).tainted| <= Apply(s, step).rewinds
  {
    if step.Receive? && Hit(s, step.n) != {} {
      assert s.tainted + Hit(s, step.n) == s.tainted + {BlockOf(s.miner.value)};
    }
  }

  lemma {:induction false} RunKeeps(s: State, steps: seq<Step>)
    requires Inv(s) && Runs(s, steps)
    ensures Inv(After(s, steps))
    decreases |steps|
  {
    if steps != [] {
      HeightsKept(s, steps[0]);
      NumberedKept(s, steps[0]);
      IntactKept(s, steps[0]);
      TaintBounded(s, steps[0]);
      RunKeeps(Apply(s, steps[0]), steps[1..]);
    }
  }

  // ---------------------------------------------------------------- what follows

  // A stream that listens on a database with nothing above lastHeight and every block
  // complete, its miner idle.
  ghost predicate Initial(s: State) {
    && s.stream.Listening? && s.miner.None? && s.tainted == {} && s.rewinds == 0
    && (forall b | b in s.blocks :: b.no <= s.last)
    && (forall d | d in s.docs && !d.index.Kept? :: d.no <= s.last)
    && (forall b, d | b in s.blocks && d in b.docs :: d.no == b.no && d in s.docs)
  }

  // Every block but the exempt ones has all its documents.
  ghost predicate Whole(s: State, exempt: set<Block>) {
    forall b, d | b in s.blocks && d in b.docs :: d in s.docs || b in exempt
  }

  // Every block but the exempt ones is at or below n.
  ghost predicate Below(s: State, n: Height, exempt: set<Block>) {
    forall b | b in s.blocks :: b.no <= n || b in exempt
  }

  // Rewinds beside the miner: at every point of every run, between the deletes of a
  // rewind included, a block that lacks a document is one the miner held when a rewind
  // deleting it began, and so is anything above lastHeight once the stream listens
  // again. Each rewind finds at most one such block.
  lemma RewindSafe(s: State, steps: seq<Step>)
    requires Initial(s) && Runs(s, steps)
    ensures var s' := After(s, steps);
            && |s'.tainted| <= s'.rewinds
            && Whole(s', s'.tainted)
            && (s'.stream.Listening? ==>
                  && Below(s', s'.last, s'.tainted)
                  && forall d | d in s'.docs && !d.index.Kept? :: AllowedDoc(s', d, s'.last))
  {
    RunKeeps(s, steps);
  }

  // No rewind of the run begins while the miner holds a height that it deletes.
  ghost predicate RewindsWhenIdle(s: State, steps: seq<Step>)
    requires Runs(s, steps)
    decreases |steps|
  {
    steps != [] ==>
      && (steps[0].Receive? && steps[0].n < s.last ==> Hit(s, steps[0].n) == {})
      && RewindsWhenIdle(Apply(s, steps[0]), steps[1..])
  }

  lemma {:induction false} IdleTaintsNothing(s: State, steps: seq<Step>)
    requires Runs(s, steps) && RewindsWhenIdle(s, steps)
    ensures After(s, steps).tainted == s.tainted
    decreases |steps|
  {
    if steps != [] { IdleTaintsNothing(Apply(s, steps[0]), steps[1..]); }
  }

  // With an idle miner every block has all its documents at every intermediate point.
  lemma IdleRewindsKeepBlocksComplete(s: State, steps: seq<Step>)
    requires Initial(s) && Runs(s, steps) && RewindsWhenIdle(s, steps)
    ensures var s' := After(s, steps);
            Whole(s', {}) && (s'.stream.Listening? ==> Below(s', s'.last, {}))
  {
    RewindSafe(s, steps);
    IdleTaintsNothing(s, steps);
  }

  // ---------------------------------------------------------------- one rewind

  // The stream receives nothing more.
  predicate Quiet(steps: seq<Step>) {
    forall step <- steps :: !step.Receive?
  }

  predicate RewindingTo(s: State, n: Height) {
    (s.stream.Deleting? && s.stream.target == n) || (s.stream.Listening? && s.last == n)
  }

  // What can follow when the stream, listening, receives a block n below lastHeight.
  ghost predicate Follows(s: State, n: Height, steps: seq<Step>)
    requires s.stream.Listening?
  {
    Runs(Apply(s, Receive(n)), steps) && Quiet(steps)
  }

  ghost function Then(s: State, n: Height, steps: seq<Step>): State
    requires s.stream.Listening? && Follows(s, n, steps)
  {
    After(Apply(s, Receive(n)), steps)
  }

  lemma Prepend(s: State, step: Step, rest: seq<Step>)
    requires Enabled(s, step) && Runs(Apply(s, step), rest)
    ensures Runs(s, [step] + rest) && After(s, [step] + rest) == After(Apply(s, step), rest)
  {
    assert ([step] + rest)[1..] == rest;
  }

  // The six deletes of a rewind, then the miner's insertion of its block.
  lemma DeletesThenBlock(s: State, k: nat) returns (steps: seq<Step>)
    requires s.stream.Deleting? && s.stream.stage == k <= 5 && Enabled(s, InsertBlock)
    ensures Runs(s, steps) && Quiet(steps)
    ensures var s' := After(s, steps);
            && s'.stream.Listening? && s'.last == s.stream.target
            && BlockOf(s.miner.value) in s'.blocks
            && (forall d: Doc | !d.index.Kept? && k <= Turn(d.index) && s.stream.target < d.no <= s.last ::
                  d !in s'.docs)
            && s'.docs <= s.docs
    decreases 5 - k
  {
    var s' := Apply(s, DeleteNext);
    if k == 5 {
      steps := [InsertBlock];
      assert steps == [InsertBlock] + [];
      Prepend(s', InsertBlock, []);
    } else {
      steps := DeletesThenBlock(s', k + 1);
    }
    Prepend(s, DeleteNext, steps);
    steps := [DeleteNext] + steps;
  }

  // The same, once the miner has inserted the rest of its documents.
  lemma MinerOutrun(s: State) returns (steps: seq<Step>)
    requires s.stream.Deleting? && s.stream.stage == 0
    requires s.miner.Some? && s.miner.value.pos <= |s.miner.value.docs|
    ensures Runs(s, steps) && Quiet(steps)
    ensures var s' := After(s, steps);
            && s'.stream.Listening? && s'.last == s.stream.target
            && BlockOf(s.miner.value) in s'.blocks
            && (forall d: Doc | !d.index.Kept? && s.stream.target < d.no <= s.last :: d !in s'.docs)
    decreases |s.miner.value.docs| - s.miner.value.pos
  {
    if Enabled(s, InsertBlock) {
      steps := DeletesThenBlock(s, 0);
    } else {
      steps := MinerOutrun(Apply(s, InsertDoc));
      Prepend(s, InsertDoc, steps);
      steps := [InsertDoc] + steps;
    }
  }

  lemma OutrunFollows(s: State, n: Height) returns (steps: seq<Step>)
    requires Numbered(s) && s.stream.Listening? && n < s.last && s.miner.Some?
    ensures Follows(s, n, steps) && Then(s, n, steps).stream.Listening?
    ensures BlockOf(s.miner.value) in Then(s, n, steps).blocks
    ensures forall d: Doc | !d.index.Kept? && n < d.no <= s.last :: d !in Then(s, n, steps).docs
  {
    steps := MinerOutrun(Apply(s, Receive(n)));
  }

  // The deletes alone leave a block above lastHeight where it is.
  lemma DeletesSpare(s: State, k: nat, b: Block) returns (steps: seq<Step>)
    requires s.stream.Deleting? && s.stream.stage == k <= 5 && b in s.blocks && b.no > s.last
    ensures Runs(s, steps) && Quiet(steps)
    ensures After(s, steps).stream.Listening? && b in After(s, steps).blocks
    decreases 5 - k
  {
    steps := [];
    if k < 5 { steps := DeletesSpare(Apply(s, DeleteNext), k + 1, b); }
    Prepend(s, DeleteNext, steps);
    steps := [DeleteNext] + steps;
  }

  // The miner alone: what it has inserted before is not looked after.
  lemma MinerFinishes(s: State) returns (steps: seq<Step>)
    requires s.miner.Some? && s.miner.value.pos <= |s.miner.value.docs|
    ensures Runs(s, steps) && Quiet(steps)
    ensures BlockOf(s.miner.value) in After(s, steps).blocks
    ensures forall d | d in After(s, steps).docs :: d in s.docs || d in s.miner.value.docs[s.miner.value.pos..]
    decreases |s.miner.value.docs| - s.miner.value.pos
  {
    if Enabled(s, InsertBlock) {
      Prepend(s, InsertBlock, []);
      steps := [InsertBlock] + [];
    } else {
      steps := MinerFinishes(Apply(s, InsertDoc));
      Prepend(s, InsertDoc, steps);
      steps := [InsertDoc] + steps;
    }
  }

  // ---------------------------------------------------------------- what is spared

  // A rewind leaves what it does not reach: blocks and documents at or below its target, and
  // the indices it does not go through.
  lemma {:induction false} RewindSpares(s: State, steps: seq<Step>, n: Height)
    requires RewindingTo(s, n) && Runs(s, steps) && Quiet(steps)
    ensures forall b | b in s.blocks && b.no <= n :: b in After(s, steps).blocks
    ensures forall d | d in s.docs && (d.no <= n || d.index.Kept?) :: d in After(s, steps).docs
    decreases |steps|
  {
    if steps != [] { RewindSpares(Apply(s, steps[0]), steps[1..], n); }
  }

  lemma FollowSpares(s: State, n: Height, steps: seq<Step>)
    requires s.stream.Listening? && n < s.last && Follows(s, n, steps)
    ensures forall b | b in s.blocks && b.no <= n :: b in Then(s, n, steps).blocks
    ensures forall d | d in s.docs && (d.no <= n || d.index.Kept?) :: d in Then(s, n, steps).docs
  {
    RewindSpares(Apply(s, Receive(n)), steps, n);
  }

  // What is left to do of the six deletes.
  function Deletes(k: nat): seq<Step>
    requires k <= 6
    decreases 6 - k
  {
    if k == 6 then [] else [DeleteNext] + Deletes(k + 1)
  }

  // The order of the indices: the block index and then these.
  function Cleared(k: nat): set<Index>
    requires k <= 6
  {
    (if k > 1 then {Tx} else {}) + (if k > 2 then {Name} else {}) + (if k > 3 then {TokenTransfer} else {})
    + (if k > 4 then {Token} else {}) + (if k > 5 then {Nft} else {})
  }

  lemma {:induction false} DeletesExact(s: State, k: nat)
    requires s.stream.Deleting? && s.stream.stage == k <= 5
    ensures Runs(s, Deletes(k))
    ensures var n, s' := s.stream.target, After(s, Deletes(k));
            && s'.stream == Listening && s'.last == n && s'.miner == s.miner
            && (forall b :: b in s'.blocks <==> b in s.blocks && (k == 0 ==> !(n < b.no <= s.last)))
            && (forall d :: d in s'.docs <==>
                  d in s.docs && !(n < d.no <= s.last && d.index in Cleared(6) - Cleared(k)))
    decreases 6 - k
  {
    var s' := Apply(s, DeleteNext);
    assert Deletes(k)[1..] == Deletes(k + 1);
    if k < 5 {
      DeletesExact(s', k + 1);
    } else {
      assert Runs(s', []);
    }
  }

  // A rewind that nothing interleaves with deletes exactly the blocks above its target, up
  // to lastHeight, and of the documents with those numbers the transactions, names, token
  // transfers, tokens and NFTs.
  lemma RewindExact(s: State, n: Height)
    requires s.stream.Listening? && n < s.last
    ensures Follows(s, n, Deletes(0))
    ensures var s' := Then(s, n, Deletes(0));
            && s'.stream.Listening? && s'.last == n
            && (forall b :: b in s'.blocks <==> b in s.blocks && (b.no <= n || b.no > s.last))
            && (forall d :: d in s'.docs <==>
                  d in s.docs && (d.no <= n || d.no > s.last || d.index.Kept?))
  {
    DeletesExact(Apply(s, Receive(n)), 0);
    assert Cleared(6) - Cleared(0) == {Tx, Name, TokenTransfer, Token, Nft};
    assert Deletes(0) == [DeleteNext, DeleteNext, DeleteNext, DeleteNext, DeleteNext, DeleteNext];
  }

  // ---------------------------------------------------------------- what is sent

  // The heights that go to the miner.
  function Sent(s: State, steps: seq<Step>): seq<Height>
    requires Runs(s, steps)
    decreases |steps|
  {
    if steps == [] then []
    else (if steps[0].Send? then [s.stream.next] else []) + Sent(Apply(s, steps[0]), steps[1..])
  }

  lemma {:induction false} SendsRest(s: State, steps: seq<Step>)
    requires s.stream.Sending? && s.stream.next <= s.stream.target && Runs(s, steps) && Quiet(steps)
    requires After(s, steps).stream.Listening?
    ensures After(s, steps).last == s.stream.target
    ensures |Sent(s, steps)| == s.stream.target - s.stream.next + 1
    ensures forall k | 0 <= k < |Sent(s, steps)| :: Sent(s, steps)[k] == s.stream.next + k
    decreases |steps|
  {
    var s' := Apply(s, steps[0]);
    if s'.stream.Listening? {
      SendsNothing(s', steps[1..]);
    } else {
      SendsRest(s', steps[1..]);
    }
  }

  lemma {:induction false} SendsNothing(s: State, steps: seq<Step>)
    requires s.stream.Listening? && Runs(s, steps) && Quiet(steps)
    ensures Sent(s, steps) == [] && After(s, steps).last == s.last
    decreases |steps|
  {
    if steps != [] { SendsNothing(Apply(s, steps[0]), steps[1..]); }
  }

  // A block above lastHeight sends every height from there up to itself, once and in
  // order, and the same block again sends itself.
  lemma ReceiveSends(s: State, n: Height, steps: seq<Step>)
    requires s.stream.Listening? && n >= s.last && Follows(s, n, steps) && Then(s, n, steps).stream.Listening?
    ensures Then(s, n, steps).last == n
    ensures var sent := Sent(Apply(s, Receive(n)), steps);
            if n == s.last then sent == [n]
            else |sent| == n - s.last && forall k | 0 <= k < |sent| :: sent[k] == s.last + 1 + k
  {
    SendsRest(Apply(s, Receive(n)), steps);
  }

  // ---------------------------------------------------------------- nothing above

  // Whatever follows a rewind, once the stream listens again nothing is above its target.
  ghost predicate Holds(s: State, n: Height)
    requires s.stream.Listening?
  {
    forall steps | Follows(s, n, steps) && Then(s, n, steps).stream.Listening? :: Below(Then(s, n, steps), n, {})
  }

  // On the way down to n: the miner holds nothing above it, nor does the block index once
  // its delete is done.
  ghost predicate Descending(s: State, n: Height) {
    && RewindingTo(s, n)
    && (s.miner.Some? ==> s.miner.value.no <= n)
    && forall b | b in s.blocks :: b.no <= n || (s.stream.Deleting? && s.stream.stage == 0 && b.no <= s.last)
  }

  lemma {:induction false} DescendingStays(s: State, steps: seq<Step>, n: Height)
    requires Descending(s, n) && Runs(s, steps) && Quiet(steps)
    ensures Descending(After(s, steps), n)
    decreases |steps|
  {
    if steps != [] { DescendingStays(Apply(s, steps[0]), steps[1..], n); }
  }

  // A rewind is sure to leave nothing above its target if and only if, when it begins, the
  // miner holds nothing above the target and the index nothing above lastHeight.
  lemma RewindHoldsIff(s: State, n: Height)
    requires Numbered(s) && s.stream.Listening? && n < s.last
    ensures Holds(s, n)
            <==> (s.miner.Some? ==> s.miner.value.no <= n) && forall b | b in s.blocks :: b.no <= s.last
  {
    if s.miner.Some? && s.miner.value.no > n {
      var steps := OutrunFollows(s, n);
      assert BlockOf(s.miner.value) in Then(s, n, steps).blocks;
    } else if b :| b in s.blocks && b.no > s.last {
      var steps := DeletesSpare(Apply(s, Receive(n)), 0, b);
      assert b in Then(s, n, steps).blocks;
    } else {
      forall steps | Follows(s, n, steps) && Then(s, n, steps).stream.Listening?
        ensures Below(Then(s, n, steps), n, {})
      {
        DescendingStays(Apply(s, Receive(n)), steps, n);
      }
    }
  }

  // ---------------------------------------------------------------- nothing lost

  // Whatever follows a rewind, until the next block no block lacks a document.
  ghost predicate LosesNothing(s: State, n: Height)
    requires s.stream.Listening?
  {
    forall steps | Follows(s, n, steps) :: Whole(Then(s, n, steps), {})
  }

  // What the miner has inserted is there or still to be inserted again.
  ghost predicate Inserted(s: State)
    requires Numbered(s)
  {
    s.miner.Some? ==>
      forall d | d in s.miner.value.docs[..s.miner.value.pos] ::
        d in s.docs || d in s.miner.value.docs[s.miner.value.pos..]
  }

  // The miner's block is out of the reach of the deletes.
  ghost predicate Spared(s: State, n: Height) {
    s.miner.Some? && n < s.miner.value.no <= s.last ==> forall d | d in s.miner.value.docs :: d.index.Kept?
  }

  // On the way down to n with every block complete: what is in reach of the deletes still
  // to come has nothing that they delete.
  ghost predicate Sound(s: State, n: Height) {
    && RewindingTo(s, n) && Numbered(s) && Whole(s, {}) && Inserted(s)
    && (s.stream.Deleting? ==>
          && Spared(s, n)
          && (s.stream.stage > 0 ==>
                forall b, d | b in s.blocks && n < b.no <= s.last && d in b.docs :: d.index.Kept?))
  }

  lemma InsertedStays(s: State)
    requires Numbered(s) && Inserted(s) && Enabled(s, InsertDoc)
    ensures Inserted(Apply(s, InsertDoc))
  {
    var docs, p := s.miner.value.docs, s.miner.value.pos;
    assert docs[..p + 1] == docs[..p] + [docs[p]];
    assert docs[p..] == [docs[p]] + docs[p + 1..];
  }

  lemma SoundStep(s: State, step: Step, n: Height)
    requires Sound(s, n) && Enabled(s, step) && !step.Receive?
    ensures Sound(Apply(s, step), n)
  {
    match step
    case InsertDoc => InsertedStays(s);
    case InsertBlock =>
      var docs := s.miner.value.docs;
      assert docs[..|docs|] == docs && docs[|docs|..] == [];
    case DeleteNext =>
    case Send(_, _) =>
  }

  lemma {:induction false} SoundStays(s: State, steps: seq<Step>, n: Height)
    requires Sound(s, n) && Runs(s, steps) && Quiet(steps)
    ensures Sound(After(s, steps), n)
    decreases |steps|
  {
    if steps != [] {
      SoundStep(s, steps[0], n);
      SoundStays(Apply(s, steps[0]), steps[1..], n);
    }
  }

  lemma UnsoundLoses(s: State, n: Height) returns (steps: seq<Step>)
    requires Numbered(s) && s.stream.Listening? && n < s.last && !(Whole(s, {}) && Inserted(s) && Spared(s, n))
    ensures Follows(s, n, steps) && !Whole(Then(s, n, steps), {})
  {
    if !Whole(s, {}) {
      steps := [];
    } else if !Inserted(s) {
      steps := MinerFinishes(Apply(s, Receive(n)));
      var d :| d in s.miner.value.docs[..s.miner.value.pos] && d !in s.docs
                  && d !in s.miner.value.docs[s.miner.value.pos..];
      assert d in BlockOf(s.miner.value).docs && d !in Then(s, n, steps).docs;
    } else {
      steps := OutrunFollows(s, n);
      var d :| d in s.miner.value.docs && !d.index.Kept?;
      assert d in BlockOf(s.miner.value).docs && d !in Then(s, n, steps).docs;
    }
  }

  // No block is sure ever to lack a document if and only if, when the rewind begins, none
  // does, what the miner has inserted is there, and the miner's block, if the rewind
  // reaches it, has no document in an index that the rewind goes through.
  lemma RewindLosesNothingIff(s: State, n: Height)
    requires Numbered(s) && s.stream.Listening? && n < s.last
    ensures LosesNothing(s, n) <==> Whole(s, {}) && Inserted(s) && Spared(s, n)
  {
    if Whole(s, {}) && Inserted(s) && Spared(s, n) {
      forall steps | Follows(s, n, steps)
        ensures Whole(Then(s, n, steps), {})
      {
        SoundStays(Apply(s, Receive(n)), steps, n);
      }
    } else {
      var steps := UnsoundLoses(s, n);
    }
  }

  // An instance: height 6 is with the miner, its transaction inserted, when the chain
  // rewinds to 5; its block then appears above lastHeight without it.
  lemma BusyRewindLosesTx() returns (s: State, steps: seq<Step>, b: Block)
    ensures Initial(s) && Runs(s, steps) && After(s, steps).stream.Listening?
    ensures b in After(s, steps).blocks && b.no > After(s, steps).last
    ensures exists d :: d in b.docs && d.index.Tx? && d !in After(s, steps).docs
  {
    var tx := Doc(Tx, 6, "t");
    b := Block(6, "b", {tx});
    s := State(5, Listening, None, {}, {}, 0, {});
    var s1 := Apply(s, Receive(6));
    var s2 := Apply(s1, Send("b", [tx]));
    var s3 := Apply(s2, InsertDoc);
    var s4 := Apply(s3, Receive(5));
    assert s4.stream == Deleting(5, 0) && s4.last == 6;
    assert b == Block(6, "b", set d | d in [tx]);
    var rest := MinerOutrun(s4);
    Prepend(s3, Receive(5), rest);
    Prepend(s2, InsertDoc, [Receive(5)] + rest);
    Prepend(s1, Send("b", [tx]), [InsertDoc] + ([Receive(5)] + rest));
    steps := [Receive(6)] + ([Send("b", [tx])] + ([InsertDoc] + ([Receive(5)] + rest)));
    Prepend(s, Receive(6), [Send("b", [tx])] + ([InsertDoc] + ([Receive(5)] + rest)));
    assert tx in b.docs;
  }
}
