// The whitelist index, shared by token and contract entries: registerVariables and
// refreshVariables of indexer/cache.go, MinerTokenVerified and MinerContractVerified of
// indexer/miner.go.

module Cache {
  import opened Sequences
  import opened Whitelist
  import opened ContractVerified
  import WhitelistTheorems
  import ContractTheorems

  // The type of a whitelist document.
  datatype Kind = OfToken | OfContract

  // The whitelist by document id, which is the token address for both types: what is
  // listed for one type replaces what was listed for the other.
  datatype Listed = Listed(contract: Address, kind: Kind)
  type Index = map<Address, Listed>

  function Part(index: Index, kind: Kind): Entries {
    map t | t in index && index[t].kind == kind :: index[t].contract
  }

  // The entries of one type in the order in which the scroll delivers them.
  function OrderOf(index: Index, kind: Kind, order: seq<Address>): (r: seq<Address>)
    ensures forall t :: t in r <==> t in order && t in index && index[t].kind == kind
    decreases |order|
  {
    if order == [] then []
    else
      var before, t := OrderOf(index, kind, order[..|order| - 1]), order[|order| - 1];
      assert order == order[..|order| - 1] + [t];
      if t in index && index[t].kind == kind then before + [t] else before
  }

  // ---------------------------------------------------------------- registration

  // The token address that each document carries, Blank for none.
  type Carriers = map<Address, Address>

  function OfTokens(tokens: Tokens): Carriers {
    map c | c in tokens :: tokens[c].tokenAddress
  }

  function OfContracts(contracts: Contracts): Carriers {
    map c | c in contracts :: contracts[c].token
  }

  function Registered(index: Index, carriers: Carriers, order: seq<Address>, kind: Kind): Index
    requires forall c :: c in order ==> c in carriers
    decreases |order|
  {
    if order == [] then index
    else
      var c := order[|order| - 1];
      var before := Registered(index, carriers, order[..|order| - 1], kind);
      if carriers[c] != Blank then before[carriers[c] := Listed(c, kind)] else before
  }

  // ---------------------------------------------------------------- a refresh

  // What the node and the web answer during one refresh.
  datatype Answers = Answers(node: Node, registry: Registry, fetched: Fetch)

  // Where a refresh of index stands once the entries of order have had their turns: listed
  // is the index with the changes that are to be written back.
  ghost predicate TokensReached(index: Index, answers: Answers, order: seq<Address>, tokens0: Tokens, tokens: Tokens,
                                listed: Index)
  {
    var entries, turns := Part(index, OfToken), OrderOf(index, OfToken, order);
    && tokens == PassTokens(tokens0, entries, answers.node, turns)
    && Part(listed, OfToken) == WhitelistTheorems.Refreshed(tokens0, entries, answers.node, turns)
  }

  ghost predicate ContractsReached(index: Index, answers: Answers, order: seq<Address>,
                                   contracts0: Contracts, contracts: Contracts, listed: Index)
  {
    var entries, turns := Part(index, OfContract), OrderOf(index, OfContract, order);
    && contracts == PassContracts(contracts0, entries, answers.registry, answers.fetched, turns)
    && Part(listed, OfContract) == PassEntries(contracts0, entries, answers.registry, answers.fetched, turns)
  }

  ghost predicate SameKinds(index: Index, listed: Index) {
    listed.Keys == index.Keys && forall t | t in index :: listed[t].kind == index[t].kind
  }

  lemma OrderNext(index: Index, kind: Kind, order: seq<Address>, i: nat)
    requires i < |order| && Lists(order, index)
    ensures var turns := OrderOf(index, kind, order[..i]);
            OrderOf(index, kind, order[..i + 1]) == if index[order[i]].kind == kind then turns + [order[i]] else turns
    ensures order[i] !in order[..i]
  {
    assert order[..i + 1][..i] == order[..i];
  }

  lemma PartNext(listed: Index, t: Address, entry: Listed)
    requires t in listed && listed[t].kind == entry.kind
    ensures Part(listed[t := entry], entry.kind) == Part(listed, entry.kind)[t := entry.contract]
    ensures forall kind | kind != entry.kind :: Part(listed[t := entry], kind) == Part(listed, kind)
  {
  }

  // A token entry's turn.
  lemma TokensNext(index: Index, answers: Answers, order: seq<Address>, i: nat, tokens0: Tokens, tokens: Tokens,
                   listed: Index)
    requires i < |order| && Lists(order, index) && SameKinds(index, listed) && index[order[i]].kind.OfToken?
    requires TokensReached(index, answers, order[..i], tokens0, tokens, listed)
    ensures var t := order[i];
            var updated := VerifiedEntry(tokens, index[t].contract, answers.node, t);
            && listed[t].contract == index[t].contract
            && TokensReached(index, answers, order[..i + 1], tokens0,
                             VerifiedTokens(tokens, index[t].contract, answers.node, t),
                             listed[t := Listed(updated, OfToken)])
  {
    var t, entries, turns := order[i], Part(index, OfToken), OrderOf(index, OfToken, order[..i]);
    OrderNext(index, OfToken, order, i);
    WhitelistTheorems.RefreshedLast(tokens0, entries, answers.node, turns, t);
    PartNext(listed, t, Listed(VerifiedEntry(tokens, index[t].contract, answers.node, t), OfToken));
    assert Part(listed, OfToken)[t] == listed[t].contract;
  }

  // A contract entry's turn.
  lemma ContractsNext(index: Index, answers: Answers, order: seq<Address>, i: nat, contracts0: Contracts,
                      contracts: Contracts, listed: Index)
    requires i < |order| && Lists(order, index) && SameKinds(index, listed) && index[order[i]].kind.OfContract?
    requires ContractsReached(index, answers, order[..i], contracts0, contracts, listed)
    ensures var t := order[i];
            var turn := TurnOf(answers.registry, answers.fetched, t);
            && listed[t].contract == index[t].contract
            && ContractsReached(index, answers, order[..i + 1], contracts0,
                                Verified(contracts, index[t].contract, t, turn),
                                listed[t := Listed(Entry(contracts, index[t].contract, turn), OfContract)])
  {
    var t, entries, turns := order[i], Part(index, OfContract), OrderOf(index, OfContract, order[..i]);
    var turn := TurnOf(answers.registry, answers.fetched, t);
    OrderNext(index, OfContract, order, i);
    ContractTheorems.EntriesElsewhere(contracts0, entries, answers.registry, answers.fetched, turns, t);
    ContractTheorems.PassLast(contracts0, entries, answers.registry, answers.fetched, turns, t);
    PartNext(listed, t, Listed(Entry(contracts, index[t].contract, turn), OfContract));
    assert Part(listed, OfContract)[t] == listed[t].contract;
  }

  // Neither type's turn touches the other type.
  lemma OtherNext(index: Index, answers: Answers, order: seq<Address>, i: nat, tokens0: Tokens, contracts0: Contracts,
                  tokens: Tokens, contracts: Contracts, listed: Index, entry: Listed)
    requires i < |order| && Lists(order, index) && SameKinds(index, listed) && index[order[i]].kind == entry.kind
    ensures entry.kind.OfContract? && TokensReached(index, answers, order[..i], tokens0, tokens, listed) ==>
              TokensReached(index, answers, order[..i + 1], tokens0, tokens, listed[order[i] := entry])
    ensures entry.kind.OfToken? && ContractsReached(index, answers, order[..i], contracts0, contracts, listed) ==>
              ContractsReached(index, answers, order[..i + 1], contracts0, contracts, listed[order[i] := entry])
  {
    OrderNext(index, OfToken, order, i);
    OrderNext(index, OfContract, order, i);
    PartNext(listed, order[i], entry);
  }

  lemma OverlayNext(index: Index, updates: Index, listed: Index, t: Address, entry: Listed)
    requires t in index && listed == index + updates && SameKinds(index, listed) && index[t].kind == entry.kind
    requires listed[t] == index[t]
    ensures index + updates[t := entry] == listed[t := entry] && SameKinds(index, listed[t := entry])
    ensures index[t] == entry ==> listed[t := entry] == index + updates
  {
  }

  lemma NothingReached(index: Index, answers: Answers, tokens: Tokens, contracts: Contracts)
    ensures TokensReached(index, answers, [], tokens, tokens, index)
    ensures ContractsReached(index, answers, [], contracts, contracts, index)
  {
    assert Part(index, OfToken) + map[] == Part(index, OfToken);
  }

  lemma MoveOver(index: Index, updates: Index, t: Address)
    requires t in updates
    ensures index[t := updates[t]] + (updates - {t}) == index + updates
  {
  }

  class Cache {
    var tokens: Tokens
    var contracts: Contracts
    var whitelist: Index

    constructor (tokens: Tokens, contracts: Contracts, whitelist: Index)
      ensures this.tokens == tokens && this.contracts == contracts && this.whitelist == whitelist
    {
      this.tokens, this.contracts, this.whitelist := tokens, contracts, whitelist;
    }

    method AddWhitelist(token: Address, contract: Address, kind: Kind)
      modifies this`whitelist
      ensures whitelist == old(whitelist)[token := Listed(contract, kind)]
    {
      whitelist := whitelist[token := Listed(contract, kind)];
    }

    // order lists the token documents as the scroll delivers them.
    method RegisterTokens(order: seq<Address>)
      requires forall c :: c in order <==> c in tokens
      modifies this`whitelist
      ensures whitelist == Registered(old(whitelist), OfTokens(tokens), order, OfToken)
    {
      var i := 0;
      assert order[..0] == [];
      while i < |order|
        invariant 0 <= i <= |order|
        invariant whitelist == Registered(old(whitelist), OfTokens(tokens), order[..i], OfToken)
      {
        assert order[..i + 1][..i] == order[..i];
        if tokens[order[i]].tokenAddress != Blank {
          AddWhitelist(tokens[order[i]].tokenAddress, order[i], OfToken);
        }
        i := i + 1;
      }
      assert order[..i] == order;
    }

    method RegisterContracts(order: seq<Address>)
      requires forall c :: c in order <==> c in contracts
      modifies this`whitelist
      ensures whitelist == Registered(old(whitelist), OfContracts(contracts), order, OfContract)
    {
      var i := 0;
      assert order[..0] == [];
      while i < |order|
        invariant 0 <= i <= |order|
        invariant whitelist == Registered(old(whitelist), OfContracts(contracts), order[..i], OfContract)
      {
        assert order[..i + 1][..i] == order[..i];
        if contracts[order[i]].token != Blank {
          AddWhitelist(contracts[order[i]].token, order[i], OfContract);
        }
        i := i + 1;
      }
      assert order[..i] == order;
    }

    method RegisterVariables(tokenOrder: seq<Address>, contractOrder: seq<Address>)
      requires forall c :: c in tokenOrder <==> c in tokens
      requires forall c :: c in contractOrder <==> c in contracts
      modifies this`whitelist
      ensures whitelist == Registered(Registered(old(whitelist), OfTokens(tokens), tokenOrder, OfToken),
                                      OfContracts(contracts), contractOrder, OfContract)
    {
      RegisterTokens(tokenOrder);
      RegisterContracts(contractOrder);
    }

    method MinerTokenVerified(tokenAddr: Address, contractAddr: Address, node: Node) returns (updated: Address)
      modifies this`tokens
      ensures tokens == VerifiedTokens(old(tokens), contractAddr, node, tokenAddr)
      ensures updated == VerifiedEntry(old(tokens), contractAddr, node, tokenAddr)
      // No other document changes, and none appears.
      ensures tokens.Keys == old(tokens).Keys
      ensures forall c | c in tokens && c != contractAddr && c != node.metadata(tokenAddr).contract ::
                tokens[c] == old(tokens)[c]
      // The prior contract, when it changes, is cleared; without its document nothing is done.
      ensures contractAddr != Blank && node.metadata(tokenAddr).contract != contractAddr ==>
                if contractAddr in old(tokens)
                then tokens[contractAddr]
                     == TokenDoc(false, Blank, Details("", "", "", "", "", ""), node.transfers(contractAddr))
                else updated == contractAddr && tokens == old(tokens)
      // The new contract is marked; without its document the entry stays.
      ensures contractAddr == Blank || node.metadata(tokenAddr).contract == contractAddr
              || contractAddr in old(tokens) ==>
                var target := node.metadata(tokenAddr).contract;
                if target == Blank then updated == Blank
                else if target in old(tokens)
                then updated == target
                     && tokens[target]
                        == TokenDoc(true, tokenAddr, node.metadata(tokenAddr).details, node.transfers(target))
                else updated == contractAddr
    {
      updated := node.metadata(tokenAddr).contract;
      if contractAddr != Blank && updated != contractAddr {
        if contractAddr !in tokens {
          return contractAddr;
        }
        tokens := tokens[contractAddr := Removed(node, contractAddr)];
      }
      if updated != Blank {
        if updated !in tokens {
          return contractAddr;
        }
        tokens := tokens[updated := Marked(node, tokenAddr)];
      }
    }

    method MinerContractVerified(tokenAddr: Address, contractAddr: Address, turn: Turn) returns (updated: Address)
      modifies this`contracts
      ensures contracts == Verified(old(contracts), contractAddr, tokenAddr, turn)
      ensures updated == Entry(old(contracts), contractAddr, turn)
      // No other document changes, and none appears.
      ensures contracts.Keys == old(contracts).Keys
      ensures forall c | c in contracts && c != contractAddr && c != turn.target :: contracts[c] == old(contracts)[c]
      // The prior contract, when it changes, is cleared; without its document nothing is done.
      ensures contractAddr != Blank && turn.target != contractAddr ==>
                if contractAddr in old(contracts) then contracts[contractAddr] == ContractDoc(false, Blank, NoUrl, "")
                else updated == contractAddr && contracts == old(contracts)
      // The new contract, unless it has the URL already, gets what was fetched, and is verified
      // when that is some code; without its document the entry stays.
      ensures contractAddr == Blank || turn.target == contractAddr || contractAddr in old(contracts) ==>
                if turn.target == Blank then updated == Blank
                else if turn.target in old(contracts)
                then updated == turn.target
                     && contracts[turn.target]
                        == (if turn.codeUrl != NoUrl && old(contracts)[turn.target].codeUrl == turn.codeUrl
                            then old(contracts)[turn.target]
                            else match turn.fetched
                                 case Some(code) => ContractDoc(code != "", tokenAddr, turn.codeUrl, code)
                                 case None => ContractDoc(false, tokenAddr, turn.codeUrl, ""))
                else updated == contractAddr
    {
      updated := turn.target;
      if contractAddr != Blank && contractAddr != updated {
        if contractAddr !in contracts {
          return contractAddr;
        }
        contracts := contracts[contractAddr := UNVERIFIED];
      }
      if updated != Blank {
        if updated !in contracts {
          return contractAddr;
        }
        var code, status := "", false;
        if turn.codeUrl != NoUrl && contracts[updated].codeUrl == turn.codeUrl {
          return updated;
        }
        if turn.fetched.Some? {
          code := turn.fetched.value;
          if |code| > 0 { status := true; }
        }
        contracts := contracts[updated := ContractDoc(status, tokenAddr, turn.codeUrl, code)];
      }
    }

    // The turn of one whitelist document; listed is what the scroll has come to so far.
    method VerifyEntry(ghost order: seq<Address>, ghost i: nat, t: Address, answers: Answers, ghost listed: Index,
                       ghost tokens0: Tokens, ghost contracts0: Contracts) returns (updated: Address)
      requires i < |order| && t == order[i] && Lists(order, whitelist) && SameKinds(whitelist, listed)
      requires TokensReached(whitelist, answers, order[..i], tokens0, tokens, listed)
      requires ContractsReached(whitelist, answers, order[..i], contracts0, contracts, listed)
      modifies this`tokens, this`contracts
      ensures listed[t] == whitelist[t]
      ensures var entry := Listed(updated, whitelist[t].kind);
              && TokensReached(whitelist, answers, order[..i + 1], tokens0, tokens, listed[t := entry])
              && ContractsReached(whitelist, answers, order[..i + 1], contracts0, contracts, listed[t := entry])
    {
      if whitelist[t].kind.OfToken? {
        TokensNext(whitelist, answers, order, i, tokens0, tokens, listed);
        updated := MinerTokenVerified(t, whitelist[t].contract, answers.node);
      } else {
        ContractsNext(whitelist, answers, order, i, contracts0, contracts, listed);
        updated := MinerContractVerified(t, whitelist[t].contract, TurnOf(answers.registry, answers.fetched, t));
      }
      OtherNext(whitelist, answers, order, i, tokens0, contracts0, tokens, contracts, listed,
                Listed(updated, whitelist[t].kind));
    }

    // The scroll over the whitelist; order is the order in which it delivers the entries.
    method VerifyEntries(order: seq<Address>, answers: Answers) returns (updates: Index)
      requires Lists(order, whitelist)
      modifies this`tokens, this`contracts
      ensures SameKinds(whitelist, whitelist + updates)
      ensures TokensReached(whitelist, answers, order, old(tokens), tokens, whitelist + updates)
      ensures ContractsReached(whitelist, answers, order, old(contracts), contracts, whitelist + updates)
    {
      updates := map[];
      ghost var listed := whitelist;
      NothingReached(whitelist, answers, tokens, contracts);
      var i := 0;
      assert order[..0] == [] && whitelist + updates == whitelist;
      while i < |order|
        invariant 0 <= i <= |order|
        invariant listed == whitelist + updates && SameKinds(whitelist, listed)
        invariant TokensReached(whitelist, answers, order[..i], old(tokens), tokens, listed)
        invariant ContractsReached(whitelist, answers, order[..i], old(contracts), contracts, listed)
      {
        var t := order[i];
        var updated := VerifyEntry(order, i, t, answers, listed, old(tokens), old(contracts));
        OverlayNext(whitelist, updates, listed, t, Listed(updated, whitelist[t].kind));
        listed := listed[t := Listed(updated, whitelist[t].kind)];
        if whitelist[t].contract != updated {
          updates := updates[t := Listed(updated, whitelist[t].kind)];
        }
        i := i + 1;
      }
      assert order[..i] == order;
    }

    // The changed entries are written back in any order.
    method WriteBack(changed: Index)
      modifies this`whitelist
      ensures whitelist == old(whitelist) + changed
    {
      var updates := changed;
      while updates != map[]
        invariant whitelist + updates == old(whitelist) + changed
        decreases |updates|
      {
        var t :| t in updates;
        MoveOver(whitelist, updates, t);
        AddWhitelist(t, updates[t].contract, updates[t].kind);
        updates := updates - {t};
      }
      assert whitelist + map[] == whitelist;
    }

    method RefreshVariables(order: seq<Address>, answers: Answers)
      requires Lists(order, whitelist)
      modifies this
      ensures SameKinds(old(whitelist), whitelist)
      ensures TokensReached(old(whitelist), answers, order, old(tokens), tokens, whitelist)
      ensures ContractsReached(old(whitelist), answers, order, old(contracts), contracts, whitelist)
    {
      var updates := VerifyEntries(order, answers);
      WriteBack(updates);
    }
  }

  // ---------------------------------------------------------------- each type by itself

  lemma {:induction false} OrderOfDistinct(index: Index, kind: Kind, order: seq<Address>)
    requires Distinct(order)
    ensures Distinct(OrderOf(index, kind, order))
    decreases |order|
  {
    if order != [] {
      assert order == order[..|order| - 1] + [order[|order| - 1]];
      DistinctLast(order[..|order| - 1], order[|order| - 1]);
      OrderOfDistinct(index, kind, order[..|order| - 1]);
    }
  }

  // A complete refresh gives each type's entries one turn each: it is a complete refresh
  // of the token entries and one of the contract entries.
  lemma PartListed(index: Index, kind: Kind, order: seq<Address>)
    requires Lists(order, index)
    ensures Lists(OrderOf(index, kind, order), Part(index, kind))
  {
    OrderOfDistinct(index, kind, order);
  }

  // ---------------------------------------------------------------- attribution

  // A document that carries a token address is what the whitelist lists for it.
  ghost predicate Attributed(carriers: Carriers, index: Index, kind: Kind) {
    forall c | c in carriers && carriers[c] != Blank ::
      carriers[c] in index && index[carriers[c]] == Listed(c, kind)
  }

  lemma AttributedParts(tokens: Tokens, contracts: Contracts, index: Index)
    ensures Attributed(OfTokens(tokens), index, OfToken) <==> WhitelistTheorems.Attributed(tokens, Part(index, OfToken))
    ensures Attributed(OfContracts(contracts), index, OfContract)
            <==> ContractVerified.Attributed(contracts, Part(index, OfContract))
  {
    assert forall c | c in tokens :: OfTokens(tokens)[c] == tokens[c].tokenAddress;
    assert forall c | c in contracts :: OfContracts(contracts)[c] == contracts[c].token;
    assert forall t, kind :: t in Part(index, kind) <==> t in index && index[t].kind == kind;
  }

  // Every complete refresh keeps the attribution of both types, whatever the metadata,
  // whatever is fetched and whichever documents are missing.
  lemma RefreshKeepsAttribution(index: Index, answers: Answers, order: seq<Address>, tokens0: Tokens,
                                contracts0: Contracts,
                                tokens: Tokens, contracts: Contracts, index': Index)
    requires Lists(order, index) && TokensReached(index, answers, order, tokens0, tokens, index')
    requires ContractsReached(index, answers, order, contracts0, contracts, index')
    requires Blank !in tokens0 && Blank !in contracts0
    requires Attributed(OfTokens(tokens0), index, OfToken) && Attributed(OfContracts(contracts0), index, OfContract)
    ensures Attributed(OfTokens(tokens), index', OfToken) && Attributed(OfContracts(contracts), index', OfContract)
  {
    AttributedParts(tokens0, contracts0, index);
    AttributedParts(tokens, contracts, index');
    PartListed(index, OfToken, order);
    PartListed(index, OfContract, order);
    WhitelistTheorems.RefreshKeepsAttribution(tokens0, Part(index, OfToken), answers.node,
                                              OrderOf(index, OfToken, order));
    ContractTheorems.RefreshKeepsAttribution(contracts0, Part(index, OfContract), answers.registry, answers.fetched,
                                             OrderOf(index, OfContract, order));
  }

  ghost predicate CarriedBy(carriers: Carriers, c: Address, t: Address) {
    c in carriers && carriers[c] == t != Blank
  }

  ghost predicate Carried(carriers: Carriers, t: Address) {
    exists c :: CarriedBy(carriers, c, t)
  }

  ghost predicate SingleCarriers(carriers: Carriers) {
    forall c, d | c in carriers && d in carriers && carriers[c] == carriers[d] != Blank :: c == d
  }

  lemma CarriersCarry(carriers: Carriers)
    ensures forall c | c in carriers && carriers[c] != Blank :: Carried(carriers, carriers[c])
  {
    forall c | c in carriers && carriers[c] != Blank
      ensures Carried(carriers, carriers[c])
    {
      assert CarriedBy(carriers, c, carriers[c]);
    }
  }

  // One scroll lists the last carrier for every token address carried, and nothing else new.
  lemma {:induction false} RegisteredAt(index: Index, carriers: Carriers, order: seq<Address>, kind: Kind, t: Address)
    requires forall c :: c in order ==> c in carriers
    ensures var r := Registered(index, carriers, order, kind);
            if exists c :: c in order && CarriedBy(carriers, c, t)
            then t in r && r[t].kind == kind
                 && exists k :: LastCarrierAt(carriers, order, t, k) && order[k] == r[t].contract
            else (t in r <==> t in index) && (t in index ==> r[t] == index[t])
    decreases |order|
  {
    if order != [] {
      var before, last := order[..|order| - 1], order[|order| - 1];
      assert order == before + [last];
      RegisteredAt(index, carriers, before, kind, t);
      assert forall c :: c in order <==> c in before || c == last;
      assert CarriedBy(carriers, last, t) ==> LastCarrierAt(carriers, order, t, |order| - 1);
      assert !CarriedBy(carriers, last, t) ==>
          forall k :: LastCarrierAt(carriers, before, t, k) ==> LastCarrierAt(carriers, order, t, k);
    }
  }

  // The last that the scroll delivers of the documents carrying t.
  ghost predicate LastCarrierAt(carriers: Carriers, order: seq<Address>, t: Address, k: int) {
    && 0 <= k < |order| && CarriedBy(carriers, order[k], t)
    && forall j | k < j < |order| :: !CarriedBy(carriers, order[j], t)
  }

  lemma RegisteredAll(index: Index, carriers: Carriers, order: seq<Address>, kind: Kind, t: Address)
    requires forall c :: c in order <==> c in carriers
    ensures var r := Registered(index, carriers, order, kind);
            if Carried(carriers, t)
            then t in r && r[t].kind == kind && CarriedBy(carriers, r[t].contract, t)
            else (t in r <==> t in index) && (t in index ==> r[t] == index[t])
  {
    RegisteredAt(index, carriers, order, kind, t);
    if c :| CarriedBy(carriers, c, t) { assert c in order; }
  }

  // Registration at the start of the stream attributes every contract document exactly
  // when no token address is carried by two of them, and every token document exactly
  // when none is carried by two of them and none by a contract document as well, whose
  // scroll comes later.
  lemma RegistrationAttributesIff(index: Index, tokens: Carriers, contracts: Carriers,
                                  tokenOrder: seq<Address>, contractOrder: seq<Address>)
    requires forall c :: c in tokenOrder <==> c in tokens
    requires forall c :: c in contractOrder <==> c in contracts
    ensures var r := Registered(Registered(index, tokens, tokenOrder, OfToken), contracts, contractOrder, OfContract);
            && (Attributed(contracts, r, OfContract) <==> SingleCarriers(contracts))
            && (Attributed(tokens, r, OfToken)
                <==> SingleCarriers(tokens) && forall t | Carried(tokens, t) :: !Carried(contracts, t))
  {
    var first := Registered(index, tokens, tokenOrder, OfToken);
    forall t
      ensures var r := Registered(first, contracts, contractOrder, OfContract);
              && (Carried(contracts, t) ==> t in r && r[t].kind.OfContract? && CarriedBy(contracts, r[t].contract, t))
              && (Carried(tokens, t) && !Carried(contracts, t) ==>
                    t in r && r[t].kind.OfToken? && CarriedBy(tokens, r[t].contract, t))
    {
      RegisteredAll(index, tokens, tokenOrder, OfToken, t);
      RegisteredAll(first, contracts, contractOrder, OfContract, t);
    }
    CarriersCarry(tokens);
    CarriersCarry(contracts);
  }

  // A verification event of either type resets its entry; the attribution of each type
  // survives exactly when none of its documents carries that token address.
  lemma ResetAttributesIff(carriers: Carriers, index: Index, kind: Kind, t: Address, reset: Kind)
    requires Blank !in carriers && t != Blank && Attributed(carriers, index, kind)
    ensures Attributed(carriers, index[t := Listed(Blank, reset)], kind) <==> !Carried(carriers, t)
  {
    assert forall c | c in carriers && carriers[c] == t :: CarriedBy(carriers, c, t);
  }

  // Two refreshes settle the token entries whatever the contract entries do meanwhile.
  lemma TwoRefreshesSettle(index0: Index, first: Answers, order: seq<Address>, tokens0: Tokens, tokens1: Tokens,
                           index1: Index,
                           second: Answers, order': seq<Address>, tokens2: Tokens, index2: Index)
    requires Lists(order, index0) && SameKinds(index0, index1) && Lists(order', index1)
    requires TokensReached(index0, first, order, tokens0, tokens1, index1)
    requires TokensReached(index1, second, order', tokens1, tokens2, index2)
    requires WhitelistTheorems.AllPresent(tokens0, Part(index0, OfToken), first.node)
    requires WhitelistTheorems.DistinctTargets(Part(index0, OfToken), first.node)
    requires WhitelistTheorems.SameMetadata(first.node, second.node)
    ensures WhitelistTheorems.Settled(Part(index2, OfToken), first.node)
    ensures WhitelistTheorems.AllMarked(tokens2, Part(index2, OfToken), first.node)
  {
    var entries, entries1 := Part(index0, OfToken), Part(index1, OfToken);
    var turns, turns' := OrderOf(index0, OfToken, order), OrderOf(index1, OfToken, order');
    PartListed(index0, OfToken, order);
    PartListed(index1, OfToken, order');
    PartKeys(index0, index1, OfToken);
    SameListing(entries1, entries, turns');
    assert tokens1 == PassTokens(tokens0, entries, first.node, turns);
    assert entries1 == WhitelistTheorems.Refreshed(tokens0, entries, first.node, turns);
    TokenRounds(entries, first.node, turns, tokens0, tokens1, entries1, second.node, turns', tokens2,
                Part(index2, OfToken));
  }

  lemma PartKeys(index: Index, index': Index, kind: Kind)
    requires SameKinds(index, index')
    ensures Part(index, kind).Keys == Part(index', kind).Keys
  {
  }

  lemma SameListing(entries: Entries, entries': Entries, order: seq<Address>)
    requires Lists(order, entries) && entries.Keys == entries'.Keys
    ensures Lists(order, entries')
  {
  }

  lemma TokenRounds(entries: Entries, first: Node, order: seq<Address>, tokens0: Tokens, tokens1: Tokens,
                    entries1: Entries,
                    second: Node, order': seq<Address>, tokens2: Tokens, entries2: Entries)
    requires Lists(order, entries) && Lists(order', entries) && Lists(order', entries1)
    requires tokens1 == PassTokens(tokens0, entries, first, order)
    requires entries1 == WhitelistTheorems.Refreshed(tokens0, entries, first, order)
    requires tokens2 == PassTokens(tokens1, entries1, second, order')
    requires entries2 == WhitelistTheorems.Refreshed(tokens1, entries1, second, order')
    requires WhitelistTheorems.AllPresent(tokens0, entries, first) && WhitelistTheorems.DistinctTargets(entries, first)
    requires WhitelistTheorems.SameMetadata(first, second)
    ensures WhitelistTheorems.Settled(entries2, first) && WhitelistTheorems.AllMarked(tokens2, entries2, first)
  {
    WhitelistTheorems.TwoRoundsSettle(tokens0, entries, first, second, order, order');
  }
}
