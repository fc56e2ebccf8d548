// How often and in which order a miner sends the documents of a block, index by index.

module MinerOrder {
  import opened Sequences
  import opened Pipeline
  import opened Miner

  function OfKind(docs: seq<Doc>, kind: Kind): seq<Doc>
    decreases |docs|
  {
    if docs == [] then []
    else
      var before, d := OfKind(docs[..|docs| - 1], kind), docs[|docs| - 1];
      if d.kind == kind then before + [d] else before
  }

  lemma {:induction false} OfKindConcat(a: seq<Doc>, b: seq<Doc>, kind: Kind)
    ensures OfKind(a + b, kind) == OfKind(a, kind) + OfKind(b, kind)
    decreases |b|
  {
    if b == [] {
      assert a + b == a;
    } else {
      assert (a + b)[..|a + b| - 1] == a + b[..|b| - 1];
      OfKindConcat(a, b[..|b| - 1], kind);
    }
  }

  function KindParts(parts: seq<seq<Doc>>, kind: Kind): seq<seq<Doc>> {
    seq(|parts|, k requires 0 <= k < |parts| => OfKind(parts[k], kind))
  }

  lemma {:induction false} OfKindFlatten(parts: seq<seq<Doc>>, kind: Kind)
    ensures OfKind(Flatten(parts), kind) == Flatten(KindParts(parts, kind))
    decreases |parts|
  {
    if parts != [] {
      var before, last := parts[..|parts| - 1], parts[|parts| - 1];
      OfKindFlatten(before, kind);
      OfKindConcat(Flatten(before), last, kind);
      assert KindParts(parts, kind)[..|parts| - 1] == KindParts(before, kind);
    }
  }

  lemma {:induction false} FlattenEmpties(parts: seq<seq<Doc>>)
    requires forall k | 0 <= k < |parts| :: parts[k] == []
    ensures Flatten(parts) == []
    decreases |parts|
  {
    if parts != [] { FlattenEmpties(parts[..|parts| - 1]); }
  }

  lemma OfKindOne(d: Doc, kind: Kind)
    ensures OfKind([d], kind) == if d.kind == kind then [d] else []
  {
    assert [d][..0] == [];
  }

  lemma OfKindTwo(d: Doc, e: Doc, kind: Kind)
    ensures OfKind([d, e], kind) == OfKind([d], kind) + OfKind([e], kind)
  {
    assert [d, e] == [d] + [e];
    OfKindConcat([d], [e], kind);
  }

  lemma OfKindThree(d: Doc, e: Doc, f: Doc, kind: Kind)
    ensures OfKind([d, e, f], kind) == OfKind([d, e], kind) + OfKind([f], kind)
  {
    assert [d, e, f] == [d, e] + [f];
    OfKindConcat([d, e], [f], kind);
  }

  // ---------------------------------------------------------------- one transaction

  lemma NamedKinds(tx: Tx, e: Event)
    ensures OfKind(NamedDocs(tx, e), TX) == [] && OfKind(NamedDocs(tx, e), EVENT) == []
    ensures OfKind(NamedDocs(tx, e), TRANSFER)
            == if e.body.Mint? || (e.body.Transfer? && e.body.hasAmount) || (e.body.Burn? && e.body.hasAmount)
               then [Doc(TRANSFER, Ids.TransferId(tx.id, e.idx))] else []
  {
    var docs := NamedDocs(tx, e);
    forall kind: Kind
      ensures OfKind([], kind) == []
      ensures |docs| == 2 ==> OfKind(docs, kind) == OfKind([docs[0]], kind) + OfKind([docs[1]], kind)
      ensures |docs| == 3 ==> OfKind(docs, kind) == OfKind([docs[0], docs[1]], kind) + OfKind([docs[2]], kind)
      ensures |docs| == 3 ==> OfKind([docs[0], docs[1]], kind) == OfKind([docs[0]], kind) + OfKind([docs[1]], kind)
      ensures forall k | 0 <= k < |docs| :: OfKind([docs[k]], kind) == if docs[k].kind == kind then [docs[k]] else []
    {
      if |docs| == 2 { OfKindTwo(docs[0], docs[1], kind); assert docs == [docs[0], docs[1]]; }
      if |docs| == 3 {
        OfKindTwo(docs[0], docs[1], kind);
        OfKindThree(docs[0], docs[1], docs[2], kind);
        assert docs == [docs[0], docs[1], docs[2]];
      }
      forall k | 0 <= k < |docs| ensures OfKind([docs[k]], kind) == if docs[k].kind == kind then [docs[k]] else [] {
        OfKindOne(docs[k], kind);
      }
    }
  }

  lemma EventKinds(b: Block, i: nat, tx: Tx, e: Event, kind: Kind)
    ensures OfKind(EventDocs(b, i, tx, e), kind)
            == (if kind == EVENT then [Doc(EVENT, Ids.EventId(b.no, i, e.idx))] else [])
               + OfKind(NamedDocs(tx, e), kind)
  {
    OfKindConcat([Doc(EVENT, Ids.EventId(b.no, i, e.idx))], NamedDocs(tx, e), kind);
    OfKindOne(Doc(EVENT, Ids.EventId(b.no, i, e.idx)), kind);
  }

  // Each event's own document.
  function EventIds(b: Block, i: nat, tx: Tx): seq<Doc> {
    seq(|tx.events|, k requires 0 <= k < |tx.events| => Doc(EVENT, Ids.EventId(b.no, i, tx.events[k].idx)))
  }

  // The transfers of mints, and of transfers and burns with an amount.
  function TransferParts(tx: Tx): seq<seq<Doc>> {
    seq(|tx.events|, k requires 0 <= k < |tx.events| =>
      var e := tx.events[k];
      if e.body.Mint? || (e.body.Transfer? && e.body.hasAmount) || (e.body.Burn? && e.body.hasAmount)
      then [Doc(TRANSFER, Ids.TransferId(tx.id, e.idx))] else [])
  }

  lemma EventsOfTx(b: Block, i: nat, tx: Tx)
    ensures OfKind(Flatten(EventParts(b, i, tx)), TX) == []
  {
    var parts := EventParts(b, i, tx);
    forall k | 0 <= k < |parts|
      ensures OfKind(parts[k], TX) == []
    {
      NamedKinds(tx, tx.events[k]);
      EventKinds(b, i, tx, tx.events[k], TX);
    }
    OfKindFlatten(parts, TX);
    FlattenEmpties(KindParts(parts, TX));
  }

  lemma EventsOfEvent(b: Block, i: nat, tx: Tx)
    ensures OfKind(Flatten(EventParts(b, i, tx)), EVENT) == EventIds(b, i, tx)
  {
    var parts := EventParts(b, i, tx);
    forall k | 0 <= k < |parts|
      ensures OfKind(parts[k], EVENT) == [EventIds(b, i, tx)[k]]
    {
      NamedKinds(tx, tx.events[k]);
      EventKinds(b, i, tx, tx.events[k], EVENT);
    }
    OfKindFlatten(parts, EVENT);
    FlattenSingles(KindParts(parts, EVENT));
  }

  lemma EventsOfTransfer(b: Block, i: nat, tx: Tx)
    ensures OfKind(Flatten(EventParts(b, i, tx)), TRANSFER) == Flatten(TransferParts(tx))
  {
    var parts := EventParts(b, i, tx);
    forall k | 0 <= k < |parts|
      ensures OfKind(parts[k], TRANSFER) == TransferParts(tx)[k]
    {
      NamedKinds(tx, tx.events[k]);
      EventKinds(b, i, tx, tx.events[k], TRANSFER);
    }
    OfKindFlatten(parts, TRANSFER);
    assert KindParts(parts, TRANSFER) == TransferParts(tx);
  }

  lemma ContractKinds(tx: Tx, sent: bool, kind: Kind)
    ensures OfKind(ContractDocs(tx, sent), kind)
            == if sent && kind == CONTRACT then [Doc(CONTRACT, tx.contract)] else []
  {
    if sent { OfKindOne(Doc(CONTRACT, tx.contract), kind); }
  }

  lemma ContractsElsewhere(tx: Tx, sent: bool, kind: Kind)
    requires kind != CONTRACT
    ensures OfKind(ContractDocs(tx, sent), kind) == []
  {
    ContractKinds(tx, sent, kind);
  }

  lemma Around(a: seq<Doc>, middle: seq<Doc>, c: seq<Doc>, last: seq<Doc>, kind: Kind)
    requires OfKind(a, kind) == [] && OfKind(c, kind) == []
    ensures OfKind(a + middle + c + last, kind) == OfKind(middle, kind) + OfKind(last, kind)
  {
    OfKindConcat(a, middle, kind);
    OfKindConcat(a + middle, c, kind);
    OfKindConcat(a + middle + c, last, kind);
  }

  // But for contracts, only the events and the transaction itself contribute.
  lemma TxKinds(b: Block, i: nat, tx: Tx, kind: Kind)
    requires !tx.naming && (tx.category.Call? || tx.category.Deploy? || tx.category.Payload? || tx.category.MultiCall?)
    requires kind != CONTRACT
    ensures OfKind(TxDocs(b, i, tx), kind)
            == OfKind(Flatten(EventParts(b, i, tx)), kind) + OfKind([Doc(TX, tx.id)], kind)
  {
    ContractsElsewhere(tx, tx.category.Deploy?, kind);
    ContractsElsewhere(tx, tx.created, kind);
    Around(ContractDocs(tx, tx.category.Deploy?), Flatten(EventParts(b, i, tx)), ContractDocs(tx, tx.created),
           [Doc(TX, tx.id)], kind);
  }

  // A transaction's own document is sent after everything else; if it is naming or plain,
  // there is nothing else.
  lemma TxLast(b: Block, i: nat, tx: Tx)
    ensures TxDocs(b, i, tx)[|TxDocs(b, i, tx)| - 1] == Doc(TX, tx.id)
    ensures tx.naming || tx.category.Plain? ==> TxDocs(b, i, tx) == [Doc(TX, tx.id)]
  {
  }

  // It is sent once.
  lemma TxOnce(b: Block, i: nat, tx: Tx)
    ensures OfKind(TxDocs(b, i, tx), TX) == [Doc(TX, tx.id)]
  {
    OfKindOne(Doc(TX, tx.id), TX);
    TxLast(b, i, tx);
    if !tx.naming && !tx.category.Plain? {
      TxKinds(b, i, tx, TX);
      EventsOfTx(b, i, tx);
    }
  }

  // Each event of a transaction that is neither is sent once, in the order of the receipt.
  lemma EventsOnce(b: Block, i: nat, tx: Tx)
    requires !tx.naming && (tx.category.Call? || tx.category.Deploy? || tx.category.Payload? || tx.category.MultiCall?)
    ensures OfKind(TxDocs(b, i, tx), EVENT) == EventIds(b, i, tx)
  {
    OfKindOne(Doc(TX, tx.id), EVENT);
    TxKinds(b, i, tx, EVENT);
    EventsOfEvent(b, i, tx);
  }

  // So is the transfer of each of its events that has one.
  lemma TransfersOnce(b: Block, i: nat, tx: Tx)
    requires !tx.naming && (tx.category.Call? || tx.category.Deploy? || tx.category.Payload? || tx.category.MultiCall?)
    ensures OfKind(TxDocs(b, i, tx), TRANSFER) == Flatten(TransferParts(tx))
  {
    OfKindOne(Doc(TX, tx.id), TRANSFER);
    TxKinds(b, i, tx, TRANSFER);
    EventsOfTransfer(b, i, tx);
  }

  // ---------------------------------------------------------------- one block

  // A block's transactions are sent once each and in the order of the block.
  lemma BlockOrder(b: Block)
    ensures var sent := OfKind(BlockDocs(b), TX);
            |sent| == |b.txs| && forall k | 0 <= k < |sent| :: sent[k] == Doc(TX, b.txs[k].id)
  {
    var parts := TxParts(b);
    forall k | 0 <= k < |parts|
      ensures OfKind(parts[k], TX) == [Doc(TX, b.txs[k].id)]
    {
      TxOnce(b, k, b.txs[k]);
    }
    OfKindFlatten(parts, TX);
    FlattenSingles(KindParts(parts, TX));
  }
}
