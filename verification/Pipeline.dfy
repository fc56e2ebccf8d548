// The bulk indexing pipeline of indexer/bulk.go, indexer/miner.go and indexer/dto.go
// as a transition system. Every send on an unbuffered channel is one joint step of
// its sender and its receiver; everything else a goroutine does is a step of its own.

module Pipeline {
  import opened Chain
  import opened Wrappers
  import opened Sequences

  // The five dependent indices, numbered in the order in which the block writer
  // sends them Commit.
  type Kind = k: nat | k < 5
  const TX: Kind := 0
  const EVENT: Kind := 1
  const CONTRACT: Kind := 2
  const TRANSFER: Kind := 3
  const ACCTOKENS: Kind := 4

  datatype Doc = Doc(kind: Kind, id: string)

  // One BlockInfo of type Bulk sent on one miner channel.
  datatype Job = Job(channel: nat, height: Height)

  // docs(h) lists what the miner of height h hands to the dependent writers, in
  // order; the block document follows it.
  datatype Config = Config(bulkSize: int, minerNum: nat, docs: Height -> seq<Doc>, jobs: seq<Job>)

  ghost predicate ValidConfig(c: Config) {
    && c.minerNum > 0
    && forall k | 0 <= k < |c.jobs| :: c.jobs[k].channel < c.minerNum
  }

  // What the database holds: block documents by height, other documents by index and id.
  datatype Db = Db(blocks: set<Height>, docs: set<Doc>)

  datatype Dispatcher =
    | Feeding(next: nat)   // InsertBlocksInRange: jobs[next..] are still to be sent
    | Halting(miner: nat)  // StopBulkChannel: StopMiner goes to miner, miner + 1, ...
    | Forcing              // the forced Commit goes to the block writer
    | Closing              // StopBulk goes to the block writer
    | ClosingDocs(dep: nat) // StopBulk goes to dep, dep + 1, ...
    | Done

  datatype Miner =
    | Waiting                      // receives from its channel
    | Mining(h: Height, pos: nat)  // docs(h)[..pos] are dealt with
    | Claimed(h: Height, pos: nat) // has stored docs(h)[pos] in the cache, sends it next
    | Halted

  datatype DocPhase =
    | Ready                // receives from its channel
    | Flushing(held: Doc)  // commits because the buffer is full; held is added afterwards
    | Syncing              // commits because the block writer asked for it
    | Acking               // sends on SynDone
    | Closed
  datatype DocWriter = DocWriter(phase: DocPhase, buf: seq<Doc>)

  datatype BlockPhase =
    | Receiving
    | Asking(dep: nat)        // sends Commit to dep, dep + 1, ...
    | Collecting(acks: nat)   // acks of the five receives from SynDone are done
    | Writing                 // commits its own buffer
    | Shut
  datatype BlockWriter = BlockWriter(phase: BlockPhase, buf: seq<Height>, held: Option<Height>)

  datatype State = State(
    dispatcher: Dispatcher,
    miners: seq<Miner>,
    block: BlockWriter,
    deps: seq<DocWriter>,
    cache: set<Doc>,     // Cache.accToken
    db: Db,
    ticks: nat)          // how often the timer may still send Commit

  function Init(c: Config, db: Db, ticks: nat): State {
    State(Feeding(0), seq(c.minerNum, _ => Waiting), BlockWriter(Receiving, [], None),
          seq(5, _ => DocWriter(Ready, [])), {}, db, ticks)
  }

  datatype Step =
    | Dispatch              // the dispatcher's next send
    | Claim(m: nat)         // getAccTokens stores an id
    | Skip(m: nat)          // getAccTokens finds an id
    | SendDoc(m: nat)
    | SendBlock(m: nat)
    | Tick                  // the timer sends Commit
    | Ask                   // the block writer sends Commit to a dependent
    | WriteDoc(dep: nat, j: nat)
    | FinishDocs(dep: nat)
    | Ack(dep: nat)
    | WriteBlock(j: nat)
    | FinishBlocks

  predicate AtDoc(c: Config, s: State, m: nat) {
    && m < |s.miners|
    && (s.miners[m].Mining? || s.miners[m].Claimed?)
    && s.miners[m].pos < |c.docs(s.miners[m].h)|
  }

  function CurrentDoc(c: Config, s: State, m: nat): Doc
    requires AtDoc(c, s, m)
  {
    c.docs(s.miners[m].h)[s.miners[m].pos]
  }

  predicate CanDispatch(c: Config, s: State) {
    match s.dispatcher
    case Feeding(k) =>
      k < |c.jobs| ==> c.jobs[k].channel < |s.miners| && s.miners[c.jobs[k].channel].Waiting?
    case Halting(i) => i < |s.miners| ==> s.miners[i].Waiting?
    case Forcing => s.block.phase.Receiving?
    case Closing => s.block.phase.Receiving?
    case ClosingDocs(i) => i < |s.deps| && s.deps[i].phase.Ready?
    case Done => false
  }

  predicate Enabled(c: Config, s: State, step: Step) {
    match step
    case Dispatch => CanDispatch(c, s)
    // Load and Store of the cache are separate calls, so that two miners can both
    // miss an id and both claim it: a claim needs no absence here.
    case Claim(m) => AtDoc(c, s, m) && s.miners[m].Mining? && CurrentDoc(c, s, m).kind == ACCTOKENS
    case Skip(m) =>
      && AtDoc(c, s, m) && s.miners[m].Mining? && CurrentDoc(c, s, m).kind == ACCTOKENS
      && CurrentDoc(c, s, m) in s.cache
    case SendDoc(m) =>
      && AtDoc(c, s, m) && (s.miners[m].Claimed? <==> CurrentDoc(c, s, m).kind == ACCTOKENS)
      && CurrentDoc(c, s, m).kind < |s.deps| && s.deps[CurrentDoc(c, s, m).kind].phase.Ready?
    case SendBlock(m) =>
      && m < |s.miners| && s.miners[m].Mining? && s.miners[m].pos == |c.docs(s.miners[m].h)|
      && s.block.phase.Receiving?
    case Tick => s.ticks > 0 && s.block.phase.Receiving?
    case Ask => s.block.phase.Asking? && s.block.phase.dep < |s.deps| && s.deps[s.block.phase.dep].phase.Ready?
    case WriteDoc(i, j) =>
      i < |s.deps| && (s.deps[i].phase.Flushing? || s.deps[i].phase.Syncing?) && j < |s.deps[i].buf|
    case FinishDocs(i) =>
      i < |s.deps| && (s.deps[i].phase.Flushing? || s.deps[i].phase.Syncing?) && s.deps[i].buf == []
    case Ack(i) => i < |s.deps| && s.deps[i].phase.Acking? && s.block.phase.Collecting?
    case WriteBlock(j) => s.block.phase.Writing? && j < |s.block.buf|
    case FinishBlocks => s.block.phase.Writing? && s.block.buf == []
  }

  // BulkIndexer on Add: `total` is the length of the buffer whenever the writer receives.
  function Accept(w: DocWriter, d: Doc, bulkSize: int): DocWriter {
    if |w.buf| >= bulkSize && |w.buf| > 0 then w.(phase := Flushing(d)) else w.(buf := w.buf + [d])
  }

  function AcceptBlock(w: BlockWriter, h: Height, bulkSize: int): BlockWriter {
    if |w.buf| >= bulkSize && |w.buf| > 0
    then w.(phase := Asking(0), held := Some(h))
    else w.(buf := w.buf + [h])
  }

  // BulkIndexer on Commit: an empty buffer returns at once, without the barrier.
  function RequestCommit(w: BlockWriter): BlockWriter {
    if w.buf == [] then w else w.(phase := Asking(0))
  }

  function ApplyDispatch(c: Config, s: State): State
    requires CanDispatch(c, s)
  {
    match s.dispatcher
    case Feeding(k) =>
      if k < |c.jobs|
      then s.(dispatcher := Feeding(k + 1), miners := s.miners[c.jobs[k].channel := Mining(c.jobs[k].height, 0)])
      else s.(dispatcher := Halting(0))
    case Halting(i) =>
      if i < |s.miners|
      then s.(dispatcher := Halting(i + 1), miners := s.miners[i := Halted])
      else s.(dispatcher := Forcing)
    case Forcing => s.(dispatcher := Closing, block := RequestCommit(s.block))
    case Closing => s.(dispatcher := ClosingDocs(0), block := s.block.(phase := Shut))
    case ClosingDocs(i) =>
      s.(dispatcher := if i + 1 < |s.deps| then ClosingDocs(i + 1) else Done,
         deps := s.deps[i := s.deps[i].(phase := Closed)])
  }

  function Apply(c: Config, s: State, step: Step): State
    requires Enabled(c, s, step)
  {
    match step
    case Dispatch => ApplyDispatch(c, s)
    case Claim(m) =>
      s.(miners := s.miners[m := Claimed(s.miners[m].h, s.miners[m].pos)], cache := s.cache + {CurrentDoc(c, s, m)})
    case Skip(m) =>
      s.(miners := s.miners[m := Mining(s.miners[m].h, s.miners[m].pos + 1)])
    case SendDoc(m) =>
      var d := CurrentDoc(c, s, m);
      s.(miners := s.miners[m := Mining(s.miners[m].h, s.miners[m].pos + 1)],
         deps := s.deps[d.kind := Accept(s.deps[d.kind], d, c.bulkSize)])
    case SendBlock(m) =>
      s.(miners := s.miners[m := Waiting], block := AcceptBlock(s.block, s.miners[m].h, c.bulkSize))
    case Tick => s.(ticks := s.ticks - 1, block := RequestCommit(s.block))
    case Ask =>
      var i := s.block.phase.dep;
      s.(block := s.block.(phase := if i + 1 < |s.deps| then Asking(i + 1) else Collecting(0)),
         deps := s.deps[i := s.deps[i].(phase := if s.deps[i].buf == [] then Acking else Syncing)])
    case WriteDoc(i, j) =>
      s.(db := s.db.(docs := s.db.docs + {s.deps[i].buf[j]}),
         deps := s.deps[i := s.deps[i].(buf := RemoveAt(s.deps[i].buf, j))])
    case FinishDocs(i) =>
      s.(deps := s.deps[i := if s.deps[i].phase.Flushing?
                             then DocWriter(Ready, [s.deps[i].phase.held])
                             else DocWriter(Acking, [])])
    case Ack(i) =>
      var n := s.block.phase.acks + 1;
      s.(block := s.block.(phase := if n < |s.deps| then Collecting(n) else Writing),
         deps := s.deps[i := s.deps[i].(phase := Ready)])
    case WriteBlock(j) =>
      s.(db := s.db.(blocks := s.db.blocks + {s.block.buf[j]}),
         block := s.block.(buf := RemoveAt(s.block.buf, j)))
    case FinishBlocks =>
      s.(block := BlockWriter(Receiving, if s.block.held.Some? then [s.block.held.value] else [], None))
  }

  // A run is a list of steps each enabled where it is taken; a reachable state is
  // what some run from an initial state leads to.
  ghost predicate Runs(c: Config, s: State, steps: seq<Step>)
    decreases |steps|
  {
    steps == [] || (Enabled(c, s, steps[0]) && Runs(c, Apply(c, s, steps[0]), steps[1..]))
  }

  ghost function After(c: Config, s: State, steps: seq<Step>): State
    requires Runs(c, s, steps)
    decreases |steps|
  {
    if steps == [] then s else After(c, Apply(c, s, steps[0]), steps[1..])
  }
}
