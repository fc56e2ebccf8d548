// What a miner hands to the bulk writers for one block, and in which order: Miner,
// MinerTx, MinerEvent and MinerEventByName of indexer/miner.go, for bulk indexing.

module Miner {
  import opened Chain
  import opened Sequences
  import opened Pipeline
  import opened PipelineSafety
  import opened PipelineTheorems
  import Ids

  // An event by its name, with what its arguments and the node's answers say. Accounts
  // and contracts are in their encoded form.
  datatype EventBody =
    | NewToken(contract: string, named: bool)  // named: the contract answers its name
    | Mint(token: string, to: string)
    | Transfer(token: string, from: string, to: string, hasAmount: bool)
    | Burn(token: string, from: string, hasAmount: bool)
    | Other                                    // another name, or arguments that do not parse
  datatype Event = Event(idx: int, body: EventBody)

  datatype Category = Call | Deploy | Payload | MultiCall | Plain

  // created: the payload asks for a token of policy 2 whose contract answers its name.
  datatype Tx = Tx(id: string, account: string, naming: bool, category: Category, contract: string,
                   events: seq<Event>, created: bool)
  datatype Block = Block(no: nat, txs: seq<Tx>)

  // A governance transaction on aergo.name, or one of no special category, yields
  // nothing but itself.
  predicate HasReceiptDocs(tx: Tx) {
    !tx.naming && !tx.category.Plain?
  }

  // ---------------------------------------------------------------- what is handed on

  function NamedDocs(tx: Tx, e: Event): seq<Doc> {
    match e.body
    case NewToken(contract, named) =>
      if named then [Doc(ACCTOKENS, Ids.AccountTokensId(tx.account, contract)), Doc(CONTRACT, contract)] else []
    case Mint(token, to) =>
      [Doc(TRANSFER, Ids.TransferId(tx.id, e.idx)), Doc(ACCTOKENS, Ids.AccountTokensId(to, token))]
    case Transfer(token, from, to, hasAmount) =>
      if !hasAmount then []
      else [Doc(TRANSFER, Ids.TransferId(tx.id, e.idx)), Doc(ACCTOKENS, Ids.AccountTokensId(to, token)),
            Doc(ACCTOKENS, Ids.AccountTokensId(from, token))]
    case Burn(token, from, hasAmount) =>
      if !hasAmount then []
      else [Doc(TRANSFER, Ids.TransferId(tx.id, e.idx)), Doc(ACCTOKENS, Ids.AccountTokensId(from, token))]
    case Other => []
  }

  function EventDocs(b: Block, i: nat, tx: Tx, e: Event): seq<Doc> {
    [Doc(EVENT, Ids.EventId(b.no, i, e.idx))] + NamedDocs(tx, e)
  }

  // The documents of the events of one receipt, event by event.
  function EventParts(b: Block, i: nat, tx: Tx): (parts: seq<seq<Doc>>)
    ensures |parts| == |tx.events|
  {
    seq(|tx.events|, k requires 0 <= k < |tx.events| => EventDocs(b, i, tx, tx.events[k]))
  }

  // What MinerTx hands on before it returns: the transaction's own document is sent on
  // leaving.
  function ReceiptDocs(b: Block, i: nat, tx: Tx): seq<Doc> {
    if !HasReceiptDocs(tx) then []
    else ContractDocs(tx, tx.category.Deploy?) + Flatten(EventParts(b, i, tx)) + ContractDocs(tx, tx.created)
  }

  function ContractDocs(tx: Tx, sent: bool): seq<Doc> {
    if sent then [Doc(CONTRACT, tx.contract)] else []
  }

  function TxDocs(b: Block, i: nat, tx: Tx): seq<Doc> {
    ReceiptDocs(b, i, tx) + [Doc(TX, tx.id)]
  }

  // The documents of one block, transaction by transaction.
  function TxParts(b: Block): (parts: seq<seq<Doc>>)
    ensures |parts| == |b.txs|
  {
    seq(|b.txs|, i requires 0 <= i < |b.txs| => TxDocs(b, i, b.txs[i]))
  }

  function BlockDocs(b: Block): seq<Doc> {
    Flatten(TxParts(b))
  }

  // ---------------------------------------------------------------- the miner

  // The sends of one miner: its documents, and the blocks it has sent with the number of
  // documents that went before each.
  class Channels {
    var sent: seq<Doc>
    var blocks: seq<(nat, nat)>

    constructor ()
      ensures sent == [] && blocks == []
    {
      sent, blocks := [], [];
    }

    method MinerEventByName(tx: Tx, e: Event)
      modifies this`sent
      ensures sent == old(sent) + NamedDocs(tx, e)
    {
      match e.body {
        case NewToken(contract, named) =>
          if !named { return; }
          sent := sent + [Doc(ACCTOKENS, Ids.AccountTokensId(tx.account, contract))];
          sent := sent + [Doc(CONTRACT, contract)];
        case Mint(token, to) =>
          sent := sent + [Doc(TRANSFER, Ids.TransferId(tx.id, e.idx))];
          sent := sent + [Doc(ACCTOKENS, Ids.AccountTokensId(to, token))];
        case Transfer(token, from, to, hasAmount) =>
          if !hasAmount { return; }
          sent := sent + [Doc(TRANSFER, Ids.TransferId(tx.id, e.idx))];
          sent := sent + [Doc(ACCTOKENS, Ids.AccountTokensId(to, token))];
          sent := sent + [Doc(ACCTOKENS, Ids.AccountTokensId(from, token))];
        case Burn(token, from, hasAmount) =>
          if !hasAmount { return; }
          sent := sent + [Doc(TRANSFER, Ids.TransferId(tx.id, e.idx))];
          sent := sent + [Doc(ACCTOKENS, Ids.AccountTokensId(from, token))];
        case Other =>
      }
    }

    method MinerEvent(b: Block, i: nat, tx: Tx, e: Event)
      modifies this`sent
      ensures sent == old(sent) + EventDocs(b, i, tx, e)
    {
      sent := sent + [Doc(EVENT, Ids.EventId(b.no, i, e.idx))];
      MinerEventByName(tx, e);
    }

    // The events of one receipt.
    method MinerEvents(b: Block, i: nat, tx: Tx)
      modifies this`sent
      ensures sent == old(sent) + Flatten(EventParts(b, i, tx))
    {
      ghost var parts := EventParts(b, i, tx);
      var k := 0;
      while k < |tx.events|
        invariant 0 <= k <= |tx.events|
        invariant sent == old(sent) + Flatten(parts[..k])
      {
        MinerEvent(b, i, tx, tx.events[k]);
        FlattenNext(parts, k);
        Associative(old(sent), Flatten(parts[..k]), parts[k]);
        k := k + 1;
      }
      assert parts[..k] == parts;
    }

    // MinerTx up to its returns.
    method MinerTxBody(b: Block, i: nat, tx: Tx)
      modifies this`sent
      ensures sent == old(sent) + ReceiptDocs(b, i, tx)
    {
      if tx.naming || tx.category.Plain? {
        return;
      }
      ghost var docs := ContractDocs(tx, tx.category.Deploy?);
      if tx.category.Deploy? {
        sent := sent + [Doc(CONTRACT, tx.contract)];
      }
      assert sent == old(sent) + docs;
      MinerEvents(b, i, tx);
      Associative(old(sent), docs, Flatten(EventParts(b, i, tx)));
      docs := docs + Flatten(EventParts(b, i, tx));
      Associative(old(sent), docs, ContractDocs(tx, tx.created));
      if tx.created {
        sent := sent + [Doc(CONTRACT, tx.contract)];
      }
    }

    method MinerTx(b: Block, i: nat, tx: Tx)
      modifies this`sent
      ensures sent == old(sent) + TxDocs(b, i, tx)
      ensures tx.naming || tx.category.Plain? ==> sent == old(sent) + [Doc(TX, tx.id)]
    {
      MinerTxBody(b, i, tx);
      sent := sent + [Doc(TX, tx.id)];
    }

    // One height: every document goes before the block.
    method MineBlock(b: Block)
      modifies this
      ensures sent == old(sent) + BlockDocs(b)
      ensures blocks == old(blocks) + [(b.no, |sent|)]
    {
      ghost var parts := TxParts(b);
      var i := 0;
      while i < |b.txs|
        invariant 0 <= i <= |b.txs|
        invariant sent == old(sent) + Flatten(parts[..i]) && blocks == old(blocks)
      {
        MinerTx(b, i, b.txs[i]);
        FlattenNext(parts, i);
        Associative(old(sent), Flatten(parts[..i]), parts[i]);
        i := i + 1;
      }
      assert parts[..i] == parts;
      blocks := blocks + [(b.no, |sent|)];
    }
  }

  // ---------------------------------------------------------------- whole blocks

  predicate HasTransfer(e: Event) {
    e.body.Mint? || (e.body.Transfer? && e.body.hasAmount) || (e.body.Burn? && e.body.hasAmount)
  }

  // The event changes what account holds of token: an account gains by a mint or a
  // transfer to it, loses by a transfer or a burn from it, and has a token it creates.
  predicate Touches(tx: Tx, e: Event, account: string, token: string) {
    match e.body
    case NewToken(contract, named) => named && account == tx.account && token == contract
    case Mint(t, to) => account == to && token == t
    case Transfer(t, from, to, hasAmount) => hasAmount && (account == from || account == to) && token == t
    case Burn(t, from, hasAmount) => hasAmount && account == from && token == t
    case Other => false
  }

  // The account-token documents of one event are stored.
  ghost predicate HoldingsStored(tx: Tx, e: Event, docs: set<Doc>) {
    forall account, token | Touches(tx, e, account, token) ::
      Doc(ACCTOKENS, Ids.AccountTokensId(account, token)) in docs
  }

  // The documents of one event are stored, account tokens only where they are counted.
  ghost predicate EventStored(b: Block, i: nat, tx: Tx, e: Event, docs: set<Doc>, counted: bool) {
    && Doc(EVENT, Ids.EventId(b.no, i, e.idx)) in docs
    && (HasTransfer(e) ==> Doc(TRANSFER, Ids.TransferId(tx.id, e.idx)) in docs)
    && (e.body.NewToken? && e.body.named ==> Doc(CONTRACT, e.body.contract) in docs)
    && (counted ==> HoldingsStored(tx, e, docs))
  }

  ghost predicate EventsStored(b: Block, i: nat, tx: Tx, events: seq<Event>, docs: set<Doc>, counted: bool) {
    forall e <- events :: EventStored(b, i, tx, e, docs, counted)
  }

  ghost predicate TxStored(b: Block, i: nat, tx: Tx, docs: set<Doc>, counted: bool) {
    && Doc(TX, tx.id) in docs
    && (!tx.naming && (tx.category.Call? || tx.category.Deploy? || tx.category.Payload? || tx.category.MultiCall?) ==>
          && (tx.category.Deploy? || tx.created ==> Doc(CONTRACT, tx.contract) in docs)
          && EventsStored(b, i, tx, tx.events, docs, counted))
  }

  ghost predicate BlockStored(b: Block, docs: set<Doc>, counted: bool) {
    forall i | 0 <= i < |b.txs| :: TxStored(b, i, b.txs[i], docs, counted)
  }

  // All of s is in docs, account tokens only where they are counted.
  ghost predicate Stored(s: seq<Doc>, docs: set<Doc>, counted: bool) {
    forall d | d in s && (counted || d.kind != ACCTOKENS) :: d in docs
  }

  lemma StoredConcat(s: seq<Doc>, t: seq<Doc>, docs: set<Doc>, counted: bool)
    ensures Stored(s + t, docs, counted) <==> Stored(s, docs, counted) && Stored(t, docs, counted)
  {
    assert forall d :: d in s + t <==> d in s || d in t;
  }

  lemma {:induction false} StoredFlatten(parts: seq<seq<Doc>>, docs: set<Doc>, counted: bool)
    ensures Stored(Flatten(parts), docs, counted) <==> forall k | 0 <= k < |parts| :: Stored(parts[k], docs, counted)
    decreases |parts|
  {
    if parts != [] {
      StoredFlatten(parts[..|parts| - 1], docs, counted);
      StoredConcat(Flatten(parts[..|parts| - 1]), parts[|parts| - 1], docs, counted);
    }
  }

  lemma NamedStored(tx: Tx, e: Event, docs: set<Doc>, counted: bool)
    ensures Stored(NamedDocs(tx, e), docs, counted)
            <==> && (HasTransfer(e) ==> Doc(TRANSFER, Ids.TransferId(tx.id, e.idx)) in docs)
                 && (e.body.NewToken? && e.body.named ==> Doc(CONTRACT, e.body.contract) in docs)
                 && (counted ==> HoldingsStored(tx, e, docs))
  {
    HoldingsSent(tx, e);
    var named := NamedDocs(tx, e);
    assert HasTransfer(e) ==> Doc(TRANSFER, Ids.TransferId(tx.id, e.idx)) == named[0];
    assert e.body.NewToken? && e.body.named ==> Doc(CONTRACT, e.body.contract) == named[1];
  }

  // An event sends the account-token documents of the accounts it touches and no others.
  lemma HoldingsSent(tx: Tx, e: Event)
    ensures forall account, token | Touches(tx, e, account, token) ::
              Doc(ACCTOKENS, Ids.AccountTokensId(account, token)) in NamedDocs(tx, e)
    ensures forall d | d in NamedDocs(tx, e) && d.kind == ACCTOKENS ::
              exists account, token :: Touches(tx, e, account, token) && d.id == Ids.AccountTokensId(account, token)
  {
    match e.body
    case NewToken(contract, named) => assert named ==> Touches(tx, e, tx.account, contract);
    case Mint(token, to) => assert Touches(tx, e, to, token);
    case Transfer(token, from, to, hasAmount) =>
      assert hasAmount ==> Touches(tx, e, from, token) && Touches(tx, e, to, token);
    case Burn(token, from, hasAmount) => assert hasAmount ==> Touches(tx, e, from, token);
    case Other =>
  }

  lemma EventStoredIff(b: Block, i: nat, tx: Tx, e: Event, docs: set<Doc>, counted: bool)
    ensures Stored(EventDocs(b, i, tx, e), docs, counted) <==> EventStored(b, i, tx, e, docs, counted)
  {
    StoredConcat([Doc(EVENT, Ids.EventId(b.no, i, e.idx))], NamedDocs(tx, e), docs, counted);
    NamedStored(tx, e, docs, counted);
  }

  lemma EventsStoredIff(b: Block, i: nat, tx: Tx, docs: set<Doc>, counted: bool)
    ensures Stored(Flatten(EventParts(b, i, tx)), docs, counted) <==> EventsStored(b, i, tx, tx.events, docs, counted)
  {
    StoredFlatten(EventParts(b, i, tx), docs, counted);
    forall k | 0 <= k < |tx.events|
      ensures Stored(EventParts(b, i, tx)[k], docs, counted) <==> EventStored(b, i, tx, tx.events[k], docs, counted)
    {
      EventStoredIff(b, i, tx, tx.events[k], docs, counted);
    }
  }

  lemma TxStoredIff(b: Block, i: nat, tx: Tx, docs: set<Doc>, counted: bool)
    ensures Stored(TxDocs(b, i, tx), docs, counted) <==> TxStored(b, i, tx, docs, counted)
  {
    StoredConcat(ReceiptDocs(b, i, tx), [Doc(TX, tx.id)], docs, counted);
    if HasReceiptDocs(tx) {
      var deployed, created := ContractDocs(tx, tx.category.Deploy?), ContractDocs(tx, tx.created);
      EventsStoredIff(b, i, tx, docs, counted);
      StoredConcat(deployed, Flatten(EventParts(b, i, tx)), docs, counted);
      StoredConcat(deployed + Flatten(EventParts(b, i, tx)), created, docs, counted);
    }
  }

  lemma BlockStoredIff(b: Block, docs: set<Doc>, counted: bool)
    ensures Stored(BlockDocs(b), docs, counted) <==> BlockStored(b, docs, counted)
  {
    StoredFlatten(TxParts(b), docs, counted);
    forall i | 0 <= i < |b.txs|
      ensures Stored(TxParts(b)[i], docs, counted) <==> TxStored(b, i, b.txs[i], docs, counted)
    {
      TxStoredIff(b, i, b.txs[i], docs, counted);
    }
  }

  // Crash consistency in the chain's own terms: in every reachable state a block in the
  // database has each of its transactions there, each event and token transfer of those
  // that are neither naming nor plain, and each contract that was deployed or made a token.
  lemma CommittedBlockIsWhole(c: Config, chain: Height -> Block, db0: Db, ticks: nat, steps: seq<Step>, h: Height)
    requires ValidConfig(c) && Consistent(c, db0) && Runs(c, Init(c, db0, ticks), steps)
    requires forall g :: c.docs(g) == BlockDocs(chain(g))
    requires h in After(c, Init(c, db0, ticks), steps).db.blocks
    ensures BlockStored(chain(h), After(c, Init(c, db0, ticks), steps).db.docs, false)
  {
    CrashConsistent(c, db0, ticks, steps);
    BlockStoredIff(chain(h), After(c, Init(c, db0, ticks), steps).db.docs, false);
    assert c.docs(h) == BlockDocs(chain(h));
  }

  // At the end of a run every dispatched block has, moreover, the account-token document
  // of every account and token that one of its events touches.
  lemma FinishedBlockIsWhole(c: Config, chain: Height -> Block, db0: Db, ticks: nat, steps: seq<Step>, k: nat)
    requires ValidConfig(c) && Consistent(c, db0) && Runs(c, Init(c, db0, ticks), steps)
    requires forall g :: c.docs(g) == BlockDocs(chain(g))
    requires Stopped(After(c, Init(c, db0, ticks), steps)) && k < |c.jobs|
    ensures var h, db := c.jobs[k].height, After(c, Init(c, db0, ticks), steps).db;
            h in db.blocks && BlockStored(chain(h), db.docs, true)
  {
    var h := c.jobs[k].height;
    ShutdownLeavesNothing(c, db0, ticks, steps);
    BlockStoredIff(chain(h), After(c, Init(c, db0, ticks), steps).db.docs, true);
    assert c.docs(h) == BlockDocs(chain(h));
  }
}
