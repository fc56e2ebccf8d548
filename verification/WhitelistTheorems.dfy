// What repeated refreshes of the whitelist establish.

module WhitelistTheorems {
  import opened Sequences
  import opened Whitelist

  // The whitelist after a refresh.
  function Refreshed(tokens: Tokens, entries: Entries, node: Node, order: seq<Address>): Entries
    requires forall t :: t in order ==> t in entries
  {
    entries + Updates(tokens, entries, node, order)
  }

  // ---------------------------------------------------------------- attribution

  // A document that carries a token address is the contract the whitelist records for it.
  ghost predicate Attributed(tokens: Tokens, entries: Entries) {
    forall c | c in tokens && tokens[c].tokenAddress != Blank ::
      tokens[c].tokenAddress in entries && entries[tokens[c].tokenAddress] == c
  }

  lemma {:induction false} UpdatesWithin(tokens: Tokens, entries: Entries, node: Node, order: seq<Address>)
    requires forall t :: t in order ==> t in entries
    ensures forall t | t in Updates(tokens, entries, node, order) :: t in order
    decreases |order|
  {
    if order != [] { UpdatesWithin(tokens, entries, node, order[..|order| - 1]); }
  }

  // The last entry of the scroll touches its own whitelist entry only, and finds there
  // what the refresh began with.
  lemma RefreshedLast(tokens: Tokens, entries: Entries, node: Node, before: seq<Address>, t: Address)
    requires t in entries && t !in before && forall x :: x in before ==> x in entries
    ensures var passed := PassTokens(tokens, entries, node, before);
            && PassTokens(tokens, entries, node, before + [t]) == VerifiedTokens(passed, entries[t], node, t)
            && Refreshed(tokens, entries, node, before)[t] == entries[t]
            && Refreshed(tokens, entries, node, before + [t])
               == Refreshed(tokens, entries, node, before)[t := VerifiedEntry(passed, entries[t], node, t)]
  {
    UpdatesWithin(tokens, entries, node, before);
    assert (before + [t])[..|before|] == before;
    Overlay(entries, Updates(tokens, entries, node, before), t,
            VerifiedEntry(PassTokens(tokens, entries, node, before), entries[t], node, t));
  }

  lemma Split(order: seq<Address>) returns (before: seq<Address>, t: Address)
    requires order != [] && Distinct(order)
    ensures order == before + [t] && Distinct(before) && t !in before && |before| == |order| - 1
    ensures forall x :: x in order <==> x in before || x == t
  {
    before, t := order[..|order| - 1], order[|order| - 1];
  }

  lemma VerifyAttributed(tokens: Tokens, entries: Entries, entries': Entries, node: Node, t: Address)
    requires Blank !in tokens && Attributed(tokens, entries) && t in entries
    requires entries' == entries[t := VerifiedEntry(tokens, entries[t], node, t)]
    ensures Attributed(VerifiedTokens(tokens, entries[t], node, t), entries')
    ensures VerifiedTokens(tokens, entries[t], node, t).Keys == tokens.Keys
  {
  }

  lemma {:induction false} PassAttributed(tokens: Tokens, entries: Entries, node: Node, order: seq<Address>)
    requires Blank !in tokens && Attributed(tokens, entries)
    requires Distinct(order) && forall t :: t in order ==> t in entries
    ensures Attributed(PassTokens(tokens, entries, node, order), Refreshed(tokens, entries, node, order))
    ensures PassTokens(tokens, entries, node, order).Keys == tokens.Keys
    decreases |order|
  {
    if order == [] {
      assert entries + map[] == entries;
    } else {
      var before, t := Split(order);
      PassAttributed(tokens, entries, node, before);
      RefreshedLast(tokens, entries, node, before, t);
      VerifyAttributed(PassTokens(tokens, entries, node, before), Refreshed(tokens, entries, node, before),
                       Refreshed(tokens, entries, node, order), node, t);
    }
  }

  // Every complete refresh keeps attribution, whatever the metadata and whichever
  // documents are missing.
  lemma RefreshKeepsAttribution(tokens: Tokens, entries: Entries, node: Node, order: seq<Address>)
    requires Blank !in tokens && Lists(order, entries) && Attributed(tokens, entries)
    ensures Attributed(PassTokens(tokens, entries, node, order), Refreshed(tokens, entries, node, order))
  {
    PassAttributed(tokens, entries, node, order);
  }

  // ---------------------------------------------------------------- stabilisation

  ghost predicate AllPresent(tokens: Tokens, entries: Entries, node: Node) {
    forall t | t in entries ::
      && (entries[t] != Blank ==> entries[t] in tokens)
      && (Target(node, t) != Blank ==> Target(node, t) in tokens)
  }

  ghost predicate DistinctTargets(entries: Entries, node: Node) {
    forall t, u | t in entries && u in entries && Target(node, t) == Target(node, u) != Blank :: t == u
  }

  // The whitelist records what the metadata names.
  ghost predicate Settled(entries: Entries, node: Node) {
    forall t | t in entries :: entries[t] == Target(node, t)
  }

  // Each whitelisted token's contract is marked verified with that token.
  ghost predicate AllMarked(tokens: Tokens, entries: Entries, node: Node) {
    forall t | t in entries && Target(node, t) != Blank ::
      && Target(node, t) in tokens
      && tokens[Target(node, t)].verified
      && tokens[Target(node, t)].tokenAddress == t
      && tokens[Target(node, t)].details == node.metadata(t).details
  }

  ghost predicate SameMetadata(a: Node, b: Node) {
    forall t :: a.metadata(t) == b.metadata(t)
  }

  lemma PresentVerify(tokens: Tokens, passed: Tokens, entries: Entries, node: Node, t: Address)
    requires AllPresent(tokens, entries, node) && t in entries && passed.Keys == tokens.Keys
    ensures !MissingDoc(passed, entries[t], node, t)
    ensures VerifiedTokens(passed, entries[t], node, t).Keys == tokens.Keys
  {
  }

  lemma {:induction false} FirstRound(tokens: Tokens, entries: Entries, node: Node, order: seq<Address>)
    requires AllPresent(tokens, entries, node) && Distinct(order) && forall t :: t in order ==> t in entries
    ensures PassTokens(tokens, entries, node, order).Keys == tokens.Keys
    ensures Refreshed(tokens, entries, node, order).Keys == entries.Keys
    ensures forall t | t in order :: Refreshed(tokens, entries, node, order)[t] == Target(node, t)
    decreases |order|
  {
    if order == [] {
      assert entries + map[] == entries;
    } else {
      var before, t := Split(order);
      FirstRound(tokens, entries, node, before);
      RefreshedLast(tokens, entries, node, before, t);
      PresentVerify(tokens, PassTokens(tokens, entries, node, before), entries, node, t);
    }
  }

  predicate TargetOf(order: seq<Address>, node: Node, c: Address) {
    exists i :: 0 <= i < |order| && Target(node, order[i]) == c != Blank
  }

  lemma TargetOfLast(before: seq<Address>, t: Address, node: Node, c: Address)
    ensures TargetOf(before + [t], node, c) <==> TargetOf(before, node, c) || c == Target(node, t) != Blank
  {
    assert (before + [t])[|before|] == t;
    assert forall i | 0 <= i < |before| :: before[i] == (before + [t])[i];
  }

  // One more turn of a settled refresh marks its own target and nothing else.
  lemma SettledTurn(tokens: Tokens, passed: Tokens, entries: Entries, node: Node, before: seq<Address>, t: Address)
    requires AllPresent(tokens, entries, node) && DistinctTargets(entries, node) && Settled(entries, node)
    requires (forall x :: x in before ==> x in entries) && t in entries && t !in before && passed.Keys == tokens.Keys
    requires forall x | x in before && Target(node, x) != Blank :: passed[Target(node, x)] == Marked(node, x)
    requires forall c | c in tokens && !TargetOf(before, node, c) :: passed[c] == tokens[c]
    ensures VerifiedEntry(passed, entries[t], node, t) == entries[t]
    ensures var passed' := VerifiedTokens(passed, entries[t], node, t);
            && passed'.Keys == tokens.Keys
            && (forall x | (x in before || x == t) && Target(node, x) != Blank ::
                  passed'[Target(node, x)] == Marked(node, x))
            && (forall c | c in tokens && !TargetOf(before + [t], node, c) :: passed'[c] == tokens[c])
  {
    PresentVerify(tokens, passed, entries, node, t);
    forall c
      ensures TargetOf(before + [t], node, c) <==> TargetOf(before, node, c) || c == Target(node, t) != Blank
    {
      TargetOfLast(before, t, node, c);
    }
  }

  lemma {:induction false} SettledRound(tokens: Tokens, entries: Entries, node: Node, order: seq<Address>)
    requires AllPresent(tokens, entries, node) && DistinctTargets(entries, node) && Settled(entries, node)
    requires Distinct(order) && forall t :: t in order ==> t in entries
    ensures Refreshed(tokens, entries, node, order) == entries
    ensures var passed := PassTokens(tokens, entries, node, order);
            && passed.Keys == tokens.Keys
            && (forall t | t in order && Target(node, t) != Blank :: passed[Target(node, t)] == Marked(node, t))
            && (forall c | c in tokens && !TargetOf(order, node, c) :: passed[c] == tokens[c])
    decreases |order|
  {
    if order == [] {
      assert entries + map[] == entries;
    } else {
      var before, t := Split(order);
      SettledRound(tokens, entries, node, before);
      RefreshedLast(tokens, entries, node, before, t);
      SettledTurn(tokens, PassTokens(tokens, entries, node, before), entries, node, before, t);
    }
  }

  // After the second refresh every target has the fields of its token and the transfer
  // count of that refresh.
  lemma SettledFields(tokens: Tokens, entries: Entries, node: Node, order: seq<Address>, t: Address)
    requires AllPresent(tokens, entries, node) && DistinctTargets(entries, node) && Settled(entries, node)
    requires Lists(order, entries) && t in entries && node.metadata(t).contract != Blank
    ensures var c, tokens' := node.metadata(t).contract, PassTokens(tokens, entries, node, order);
            c in tokens' && tokens'[c] == TokenDoc(true, t, node.metadata(t).details, node.transfers(c))
  {
    SettledRound(tokens, entries, node, order);
  }

  // Two refreshes suffice: with stable metadata, all named documents present and
  // distinct targets, every whitelisted token's contract is then marked with it.
  lemma TwoRoundsSettle(tokens: Tokens, entries: Entries, first: Node, second: Node, order: seq<Address>,
                        order': seq<Address>)
    requires AllPresent(tokens, entries, first) && DistinctTargets(entries, first) && SameMetadata(first, second)
    requires Lists(order, entries) && Lists(order', entries)
    ensures var tokens1, entries1 := PassTokens(tokens, entries, first, order),
                                     Refreshed(tokens, entries, first, order);
            && entries1.Keys == entries.Keys
            && var tokens2, entries2 := PassTokens(tokens1, entries1, second, order'),
                                        Refreshed(tokens1, entries1, second, order');
            && Settled(entries2, first)
            && AllMarked(tokens2, entries2, first)
            && AllPresent(tokens2, entries2, first)
            && entries2.Keys == entries.Keys
  {
    FirstRound(tokens, entries, first, order);
    var tokens1, entries1 := PassTokens(tokens, entries, first, order), Refreshed(tokens, entries, first, order);
    SettledRound(tokens1, entries1, second, order');
  }

  // Once settled and marked, a refresh changes neither the whitelist nor any document's
  // status, token address and details; only transfer counts are renewed.
  lemma FurtherRoundsIdle(tokens: Tokens, entries: Entries, node: Node, later: Node, order: seq<Address>)
    requires AllPresent(tokens, entries, node) && DistinctTargets(entries, node) && SameMetadata(node, later)
    requires Settled(entries, node) && AllMarked(tokens, entries, node) && Lists(order, entries)
    ensures Refreshed(tokens, entries, later, order) == entries
    ensures var tokens' := PassTokens(tokens, entries, later, order);
            && tokens'.Keys == tokens.Keys
            && forall c | c in tokens :: tokens'[c].(totalTransfer := 0) == tokens[c].(totalTransfer := 0)
  {
    SettledRound(tokens, entries, later, order);
    var tokens' := PassTokens(tokens, entries, later, order);
    forall c | c in tokens
      ensures tokens'[c].(totalTransfer := 0) == tokens[c].(totalTransfer := 0)
    {
      if TargetOf(order, later, c) {
        var i :| 0 <= i < |order| && Target(later, order[i]) == c != Blank;
        assert order[i] in order;
      }
    }
  }

  // ---------------------------------------------------------------- one refresh

  // A later entry of the scroll gives up the contract that entry i has just marked.
  predicate GivenUpAt(entries: Entries, node: Node, order: seq<Address>, i: nat, j: nat)
    requires i < |order| && j < |order| && order[j] in entries
  {
    entries[order[j]] == Target(node, order[i]) != Target(node, order[j])
  }

  ghost predicate GivenUp(entries: Entries, node: Node, order: seq<Address>, i: nat)
    requires i < |order| && forall t :: t in order ==> t in entries
  {
    exists j :: i < j < |order| && GivenUpAt(entries, node, order, i, j)
  }

  lemma GivenUpLast(entries: Entries, node: Node, before: seq<Address>, t: Address, i: nat)
    requires i < |before| && t in entries && forall x :: x in before ==> x in entries
    ensures GivenUp(entries, node, before + [t], i)
            <==> GivenUp(entries, node, before, i) || entries[t] == Target(node, before[i]) != Target(node, t)
  {
    var order := before + [t];
    assert forall j | i < j < |before| ::
        GivenUpAt(entries, node, before, i, j) <==> GivenUpAt(entries, node, order, i, j);
    assert GivenUpAt(entries, node, order, i, |before|) <==> entries[t] == Target(node, before[i]) != Target(node, t);
  }

  // What one entry does to the contract that another entry targets.
  lemma VerifyElsewhere(tokens: Tokens, passed: Tokens, entries: Entries, node: Node, t: Address, c: Address)
    requires AllPresent(tokens, entries, node) && t in entries && passed.Keys == tokens.Keys
    requires c in tokens && c != Target(node, t) && c != Blank
    ensures VerifiedTokens(passed, entries[t], node, t).Keys == tokens.Keys
    ensures VerifiedTokens(passed, entries[t], node, t)[c] == if entries[t] == c then Removed(node, c) else passed[c]
  {
  }

  lemma {:induction false} MarkedUnlessGivenUp(tokens: Tokens, entries: Entries, node: Node, order: seq<Address>,
                                               i: nat)
    requires AllPresent(tokens, entries, node) && DistinctTargets(entries, node)
    requires Distinct(order) && (forall t :: t in order ==> t in entries)
    requires i < |order| && Target(node, order[i]) != Blank
    ensures PassTokens(tokens, entries, node, order).Keys == tokens.Keys
    ensures PassTokens(tokens, entries, node, order)[Target(node, order[i])]
            == if GivenUp(entries, node, order, i) then Removed(node, Target(node, order[i]))
               else Marked(node, order[i])
    decreases |order|
  {
    var before, t := Split(order);
    var passed := PassTokens(tokens, entries, node, before);
    assert passed.Keys == tokens.Keys by { FirstRound(tokens, entries, node, before); }
    assert PassTokens(tokens, entries, node, order) == VerifiedTokens(passed, entries[t], node, t) by {
      RefreshedLast(tokens, entries, node, before, t);
    }
    if i < |before| {
      assert order[i] == before[i] && before[i] in order;
      MarkedUnlessGivenUp(tokens, entries, node, before, i);
      GivenUpLast(entries, node, before, t, i);
      VerifyElsewhere(tokens, passed, entries, node, t, Target(node, before[i]));
    } else {
      assert order[i] == t;
      PresentVerify(tokens, passed, entries, node, t);
    }
  }

  // The same field by field.
  lemma RefreshedFields(tokens: Tokens, entries: Entries, node: Node, order: seq<Address>, i: nat)
    requires AllPresent(tokens, entries, node) && DistinctTargets(entries, node)
    requires Distinct(order) && (forall t :: t in order ==> t in entries)
    requires i < |order| && node.metadata(order[i]).contract != Blank
    ensures var c, tokens' := node.metadata(order[i]).contract, PassTokens(tokens, entries, node, order);
            && c in tokens'
            && tokens'[c] == if GivenUp(entries, node, order, i)
                             then TokenDoc(false, Blank, Details("", "", "", "", "", ""), node.transfers(c))
                             else TokenDoc(true, order[i], node.metadata(order[i]).details, node.transfers(c))
  {
    MarkedUnlessGivenUp(tokens, entries, node, order, i);
  }

  // Exactly when one refresh is enough: no entry later in the scroll gives up a contract
  // that an earlier one has taken over.
  lemma OneRoundSettlesIff(tokens: Tokens, entries: Entries, node: Node, order: seq<Address>)
    requires AllPresent(tokens, entries, node) && DistinctTargets(entries, node) && Lists(order, entries)
    ensures AllMarked(PassTokens(tokens, entries, node, order), entries, node)
            <==> forall i, j | 0 <= i < j < |order| && Target(node, order[i]) != Blank ::
                  !GivenUpAt(entries, node, order, i, j)
  {
    forall i | 0 <= i < |order| && Target(node, order[i]) != Blank
      ensures PassTokens(tokens, entries, node, order).Keys == tokens.Keys
      ensures PassTokens(tokens, entries, node, order)[Target(node, order[i])]
              == if GivenUp(entries, node, order, i) then Removed(node, Target(node, order[i]))
                 else Marked(node, order[i])
    {
      MarkedUnlessGivenUp(tokens, entries, node, order, i);
    }
    FirstRound(tokens, entries, node, order);
    assert forall i | 0 <= i < |order| :: order[i] in entries;
  }

  // The chain t1: A to B, t2: B to C in this order: one refresh leaves B unverified.
  lemma ChainNeedsTwoRounds(tokens: Tokens, entries: Entries, node: Node, a: Address, b: Address, c: Address,
                            t1: Address, t2: Address)
    requires a in tokens && b in tokens && c in tokens && Blank !in tokens && a != b && b != c && t1 != t2
    requires entries == map[t1 := a, t2 := b] && Target(node, t1) == b && Target(node, t2) == c
    ensures !AllMarked(PassTokens(tokens, entries, node, [t1, t2]), entries, node)
  {
    assert GivenUpAt(entries, node, [t1, t2], 0, 1);
    OneRoundSettlesIff(tokens, entries, node, [t1, t2]);
  }
}
