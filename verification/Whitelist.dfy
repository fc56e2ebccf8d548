// Reconciling the verification whitelist with the token documents: what MinerTokenVerified
// of indexer/miner.go does for one entry, and what that comes to over a refresh.

module Whitelist {
  // A contract or token address; Blank is the empty string.
  datatype Address = Blank | Addr(text: string)

  datatype Details = Details(owner: string, comment: string, email: string, regDate: string,
                             homepageUrl: string, imageUrl: string)

  // The verification fields of a token document.
  datatype TokenDoc = TokenDoc(verified: bool, tokenAddress: Address, details: Details, totalTransfer: nat)

  // What the verification contract answers for a token address.
  datatype Metadata = Metadata(contract: Address, details: Details)

  // The documents of index token by contract address, and the token entries of index
  // whitelist: token address to contract address.
  type Tokens = map<Address, TokenDoc>
  type Entries = map<Address, Address>

  // What the node answers during a refresh: metadata by token address, and transfer
  // counts by contract address.
  datatype Node = Node(metadata: Address -> Metadata, transfers: Address -> nat)

  const NO_DETAILS := Details("", "", "", "", "", "")

  function Target(node: Node, token: Address): Address {
    node.metadata(token).contract
  }

  function Removed(node: Node, contract: Address): TokenDoc {
    TokenDoc(false, Blank, NO_DETAILS, node.transfers(contract))
  }

  function Marked(node: Node, token: Address): TokenDoc {
    TokenDoc(true, token, node.metadata(token).details, node.transfers(Target(node, token)))
  }

  // ---------------------------------------------------------------- one entry

  // The documents after the prior contract, when it changes, has been cleared.
  function AfterRemoval(tokens: Tokens, prior: Address, node: Node, token: Address): Tokens {
    if prior != Blank && Target(node, token) != prior && prior in tokens
    then tokens[prior := Removed(node, prior)] else tokens
  }

  // Whether a document that MinerTokenVerified needs is missing.
  predicate MissingDoc(tokens: Tokens, prior: Address, node: Node, token: Address) {
    || (prior != Blank && Target(node, token) != prior && prior !in tokens)
    || (Target(node, token) != Blank && Target(node, token) !in tokens)
  }

  function VerifiedTokens(tokens: Tokens, prior: Address, node: Node, token: Address): Tokens {
    var cleared := AfterRemoval(tokens, prior, node, token);
    if Target(node, token) != Blank && !MissingDoc(tokens, prior, node, token)
    then cleared[Target(node, token) := Marked(node, token)] else cleared
  }

  // The contract address that goes to the whitelist.
  function VerifiedEntry(tokens: Tokens, prior: Address, node: Node, token: Address): Address {
    if MissingDoc(tokens, prior, node, token) then prior else Target(node, token)
  }

  lemma Overlay(entries: Entries, updates: Entries, t: Address, updated: Address)
    requires t in entries && t !in updates
    ensures entries + updates[t := updated] == (entries + updates)[t := updated]
    ensures entries[t] == updated ==> (entries + updates)[t := updated] == entries + updates
  {
  }

  // ---------------------------------------------------------------- a whole refresh

  // order lists the entries of the whitelist, each once.
  ghost predicate Lists<E>(order: seq<Address>, entries: map<Address, E>) {
    && (forall t :: t in order <==> t in entries)
    && (forall i, j | 0 <= i < j < |order| :: order[i] != order[j])
  }

  // The token documents after the entries in order have been dealt with; each looks at
  // the contract address that the whitelist held when the refresh began.
  function PassTokens(tokens: Tokens, entries: Entries, node: Node, order: seq<Address>): Tokens
    requires forall t :: t in order ==> t in entries
    decreases |order|
  {
    if order == [] then tokens
    else
      var t := order[|order| - 1];
      VerifiedTokens(PassTokens(tokens, entries, node, order[..|order| - 1]), entries[t], node, t)
  }

  // The entries in order that come back changed.
  function Updates(tokens: Tokens, entries: Entries, node: Node, order: seq<Address>): Entries
    requires forall t :: t in order ==> t in entries
    decreases |order|
  {
    if order == [] then map[]
    else
      var t, before := order[|order| - 1], order[..|order| - 1];
      var updated := VerifiedEntry(PassTokens(tokens, entries, node, before), entries[t], node, t);
      var updates := Updates(tokens, entries, node, before);
      if entries[t] != updated then updates[t := updated] else updates
  }
}
