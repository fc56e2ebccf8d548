// Verified contracts: what MinerContractVerified of indexer/miner.go does for one entry,
// and what that comes to over a refresh. Unlike tokens, a contract whose code URL is
// unchanged is passed over, and what was fetched before stays.

module ContractVerified {
  import opened Wrappers
  import opened Whitelist

  datatype Url = NoUrl | Url(text: string)

  // The verification fields of a contract document.
  datatype ContractDoc = ContractDoc(verified: bool, token: Address, codeUrl: Url, code: string)

  // One entry's turn in a refresh: what the verification contract answers for the token,
  // and what fetching the code gives, None for an error.
  datatype Turn = Turn(target: Address, codeUrl: Url, fetched: Option<string>)

  type Contracts = map<Address, ContractDoc>

  const UNVERIFIED := ContractDoc(false, Blank, NoUrl, "")

  function Cleared(docs: Contracts, prior: Address, turn: Turn): Contracts {
    if prior != Blank && prior != turn.target && prior in docs then docs[prior := UNVERIFIED] else docs
  }

  predicate Missing(docs: Contracts, prior: Address, turn: Turn) {
    || (prior != Blank && prior != turn.target && prior !in docs)
    || (turn.target != Blank && turn.target !in docs)
  }

  predicate Fetches(turn: Turn) {
    turn.fetched.Some? && |turn.fetched.value| > 0
  }

  function Marking(token: Address, turn: Turn): ContractDoc {
    ContractDoc(Fetches(turn), token, turn.codeUrl, if turn.fetched.Some? then turn.fetched.value else "")
  }

  function Verified(docs: Contracts, prior: Address, token: Address, turn: Turn): Contracts {
    var cleared := Cleared(docs, prior, turn);
    if Missing(docs, prior, turn) || turn.target == Blank
       || (turn.codeUrl != NoUrl && cleared[turn.target].codeUrl == turn.codeUrl) then cleared
    else cleared[turn.target := Marking(token, turn)]
  }

  function Entry(docs: Contracts, prior: Address, turn: Turn): Address {
    if Missing(docs, prior, turn) then prior else turn.target
  }

  // ---------------------------------------------------------------- a whole refresh

  // The metadata of every token, and what fetching its code gives in one refresh.
  datatype Registry = Registry(target: Address -> Address, codeUrl: Address -> Url)
  type Fetch = Address -> Option<string>

  function TurnOf(registry: Registry, fetched: Fetch, token: Address): Turn {
    Turn(registry.target(token), registry.codeUrl(token), fetched(token))
  }

  // The documents after the entries in order have had their turns; each looks at the
  // contract address that the whitelist held when the refresh began.
  function PassContracts(docs: Contracts, entries: Entries, registry: Registry, fetched: Fetch,
                         order: seq<Address>): Contracts
    requires forall t :: t in order ==> t in entries
    decreases |order|
  {
    if order == [] then docs
    else
      var t := order[|order| - 1];
      Verified(PassContracts(docs, entries, registry, fetched, order[..|order| - 1]), entries[t], t,
               TurnOf(registry, fetched, t))
  }

  function PassEntries(docs: Contracts, entries: Entries, registry: Registry, fetched: Fetch,
                       order: seq<Address>): (r: Entries)
    requires forall t :: t in order ==> t in entries
    ensures r.Keys == entries.Keys
    decreases |order|
  {
    if order == [] then entries
    else
      var t, before := order[|order| - 1], order[..|order| - 1];
      PassEntries(docs, entries, registry, fetched, before)
      [t := Entry(PassContracts(docs, entries, registry, fetched, before), entries[t], TurnOf(registry, fetched, t))]
  }

  // ---------------------------------------------------------------- attribution

  // A document that carries a token address is the contract the whitelist records for it.
  ghost predicate Attributed(docs: Contracts, entries: Entries) {
    forall c | c in docs && docs[c].token != Blank :: docs[c].token in entries && entries[docs[c].token] == c
  }

  lemma TurnKeepsAttribution(docs: Contracts, entries: Entries, token: Address, turn: Turn)
    requires Blank !in docs && token in entries && Attributed(docs, entries)
    ensures Attributed(Verified(docs, entries[token], token, turn), entries[token := Entry(docs, entries[token], turn)])
    ensures Verified(docs, entries[token], token, turn).Keys == docs.Keys
  {
  }

  // Any turns of any entries keep attribution: calls lists them in order.
  ghost function AfterCalls(docs: Contracts, entries: Entries, calls: seq<(Address, Turn)>): (Contracts, Entries)
    requires forall call :: call in calls ==> call.0 in entries
    decreases |calls|
  {
    if calls == [] then (docs, entries)
    else
      var (token, turn) := calls[0];
      AfterCalls(Verified(docs, entries[token], token, turn), entries[token := Entry(docs, entries[token], turn)],
                 calls[1..])
  }

  lemma {:induction false} CallsKeepAttribution(docs: Contracts, entries: Entries, calls: seq<(Address, Turn)>)
    requires Blank !in docs && Attributed(docs, entries)
    requires forall call :: call in calls ==> call.0 in entries
    ensures Attributed(AfterCalls(docs, entries, calls).0, AfterCalls(docs, entries, calls).1)
    decreases |calls|
  {
    if calls != [] {
      var (token, turn) := calls[0];
      TurnKeepsAttribution(docs, entries, token, turn);
      CallsKeepAttribution(Verified(docs, entries[token], token, turn),
                           entries[token := Entry(docs, entries[token], turn)], calls[1..]);
    }
  }
}
