// What repeated refreshes make of the verified contracts.

module ContractTheorems {
  import opened Wrappers
  import opened Sequences
  import opened Whitelist
  import opened ContractVerified

  // Every document that an entry names, now or by its metadata, is there.
  ghost predicate Present(docs: Contracts, entries: Entries, registry: Registry) {
    forall t | t in entries ::
      (entries[t] != Blank ==> entries[t] in docs) && (registry.target(t) != Blank ==> registry.target(t) in docs)
  }

  ghost predicate SingleTargets(entries: Entries, registry: Registry) {
    forall t, u | t in entries && u in entries && registry.target(t) == registry.target(u) != Blank :: t == u
  }

  // Token t's turn gives up contract c.
  predicate GivesUp(entries: Entries, registry: Registry, t: Address, c: Address) {
    t in entries && entries[t] == c != registry.target(t)
  }

  ghost predicate GivenUp(entries: Entries, registry: Registry, order: seq<Address>, c: Address) {
    exists t <- order :: GivesUp(entries, registry, t, c)
  }

  lemma GivenUpLast(entries: Entries, registry: Registry, before: seq<Address>, t: Address, c: Address)
    ensures GivenUp(entries, registry, before + [t], c)
            <==> GivenUp(entries, registry, before, c) || GivesUp(entries, registry, t, c)
  {
    assert forall u :: u in before + [t] <==> u in before || u == t;
  }

  // What its own turn makes of a token's target.
  function Taken(doc: ContractDoc, token: Address, turn: Turn): ContractDoc {
    if turn.codeUrl != NoUrl && doc.codeUrl == turn.codeUrl then doc else Marking(token, turn)
  }

  // ---------------------------------------------------------------- one refresh

  lemma {:induction false} PassKeys(docs: Contracts, entries: Entries, registry: Registry, fetched: Fetch,
                                    order: seq<Address>)
    requires forall t :: t in order ==> t in entries
    ensures PassContracts(docs, entries, registry, fetched, order).Keys == docs.Keys
    decreases |order|
  {
    if order != [] { PassKeys(docs, entries, registry, fetched, order[..|order| - 1]); }
  }

  lemma PassLast(docs: Contracts, entries: Entries, registry: Registry, fetched: Fetch, before: seq<Address>,
                 t: Address)
    requires (forall u :: u in before ==> u in entries) && t in entries
    ensures PassContracts(docs, entries, registry, fetched, before + [t])
            == Verified(PassContracts(docs, entries, registry, fetched, before), entries[t], t,
                        TurnOf(registry, fetched, t))
    ensures PassEntries(docs, entries, registry, fetched, before + [t])
            == PassEntries(docs, entries, registry, fetched, before)
               [t := Entry(PassContracts(docs, entries, registry, fetched, before), entries[t],
                           TurnOf(registry, fetched, t))]
  {
    assert (before + [t])[..|before|] == before;
  }

  // A turn elsewhere clears a contract that it gives up and leaves any other alone.
  lemma TurnElsewhere(docs: Contracts, passed: Contracts, entries: Entries, registry: Registry, fetched: Fetch,
                      t: Address, c: Address)
    requires Present(docs, entries, registry) && passed.Keys == docs.Keys && t in entries
    requires c in docs && c != Blank && c != registry.target(t)
    ensures var docs' := Verified(passed, entries[t], t, TurnOf(registry, fetched, t));
            c in docs' && docs'[c] == if GivesUp(entries, registry, t, c) then UNVERIFIED else passed[c]
  {
  }

  lemma TurnAtTarget(docs: Contracts, passed: Contracts, entries: Entries, registry: Registry, fetched: Fetch,
                     t: Address)
    requires Present(docs, entries, registry) && passed.Keys == docs.Keys && t in entries && registry.target(t) != Blank
    ensures var c, docs' := registry.target(t), Verified(passed, entries[t], t, TurnOf(registry, fetched, t));
            c in docs' && docs'[c] == Taken(passed[c], t, TurnOf(registry, fetched, t))
  {
  }

  // Nobody's target is cleared if somebody gives it up.
  lemma {:induction false} PassUntargeted(docs: Contracts, entries: Entries, registry: Registry, fetched: Fetch,
                                          order: seq<Address>, c: Address)
    requires Present(docs, entries, registry) && c in docs && c != Blank
    requires forall t :: t in order ==> t in entries && registry.target(t) != c
    ensures var docs' := PassContracts(docs, entries, registry, fetched, order);
            c in docs' && docs'[c] == if GivenUp(entries, registry, order, c) then UNVERIFIED else docs[c]
    decreases |order|
  {
    if order != [] {
      var before, t := order[..|order| - 1], order[|order| - 1];
      assert order == before + [t];
      PassUntargeted(docs, entries, registry, fetched, before, c);
      PassKeys(docs, entries, registry, fetched, before);
      TurnElsewhere(docs, PassContracts(docs, entries, registry, fetched, before), entries, registry, fetched, t, c);
      GivenUpLast(entries, registry, before, t, c);
    }
  }

  // One refresh: t's target is cleared if an entry after t gives it up, and is otherwise
  // what t's turn makes of it, which finds it cleared if an entry before t gave it up.
  lemma {:induction false} PassTarget(docs: Contracts, entries: Entries, registry: Registry, fetched: Fetch,
                                      before: seq<Address>, t: Address, after: seq<Address>)
    requires Present(docs, entries, registry) && SingleTargets(entries, registry) && Distinct(before + [t] + after)
    requires (forall u :: u in before + [t] + after ==> u in entries) && registry.target(t) != Blank && t in entries
    ensures var c, docs' := registry.target(t), PassContracts(docs, entries, registry, fetched, before + [t] + after);
            && c in docs && c in docs'
            && docs'[c] == if GivenUp(entries, registry, after, c) then UNVERIFIED
                           else Taken(if GivenUp(entries, registry, before, c) then UNVERIFIED else docs[c], t,
                                      TurnOf(registry, fetched, t))
    decreases |after|
  {
    var c := registry.target(t);
    var order := before + [t] + after;
    if after == [] {
      assert order == before + [t];
      DistinctLast(before, t);
      assert forall u :: u in before ==> u in order;
      PassUntargeted(docs, entries, registry, fetched, before, c);
      PassKeys(docs, entries, registry, fetched, before);
      PassLast(docs, entries, registry, fetched, before, t);
      TurnAtTarget(docs, PassContracts(docs, entries, registry, fetched, before), entries, registry, fetched, t);
    } else {
      var init, u := after[..|after| - 1], after[|after| - 1];
      var rest := before + [t] + init;
      assert after == init + [u] && order == rest + [u];
      DistinctLast(rest, u);
      assert rest[|before|] == t;
      PassTarget(docs, entries, registry, fetched, before, t, init);
      PassKeys(docs, entries, registry, fetched, rest);
      PassLast(docs, entries, registry, fetched, rest, u);
      TurnElsewhere(docs, PassContracts(docs, entries, registry, fetched, rest), entries, registry, fetched, u, c);
      GivenUpLast(entries, registry, init, u, c);
    }
  }

  lemma {:induction false} PassSettles(docs: Contracts, entries: Entries, registry: Registry, fetched: Fetch,
                                       order: seq<Address>)
    requires Present(docs, entries, registry) && forall t :: t in order ==> t in entries
    ensures forall t | t in order :: PassEntries(docs, entries, registry, fetched, order)[t] == registry.target(t)
    decreases |order|
  {
    if order != [] {
      var before := order[..|order| - 1];
      PassSettles(docs, entries, registry, fetched, before);
      PassKeys(docs, entries, registry, fetched, before);
      assert order == before + [order[|order| - 1]];
    }
  }

  // ---------------------------------------------------------------- attribution

  // A document that carries no token has no URL.
  ghost predicate UnclaimedBare(docs: Contracts) {
    forall c | c in docs && docs[c].token == Blank :: docs[c].codeUrl == NoUrl
  }

  lemma {:induction false} EntriesElsewhere(docs: Contracts, entries: Entries, registry: Registry, fetched: Fetch,
                                            order: seq<Address>, t: Address)
    requires t in entries && t !in order && forall u :: u in order ==> u in entries
    ensures PassEntries(docs, entries, registry, fetched, order)[t] == entries[t]
    decreases |order|
  {
    if order != [] { EntriesElsewhere(docs, entries, registry, fetched, order[..|order| - 1], t); }
  }

  lemma TurnKeepsBare(docs: Contracts, prior: Address, token: Address, turn: Turn)
    requires UnclaimedBare(docs) && token != Blank
    ensures UnclaimedBare(Verified(docs, prior, token, turn))
  {
  }

  // Every complete refresh keeps attribution, whatever the metadata, whatever is fetched
  // and whichever documents are missing.
  lemma {:induction false} RefreshKeepsAttribution(docs: Contracts, entries: Entries, registry: Registry,
                                                   fetched: Fetch,
                                                   order: seq<Address>)
    requires Blank !in docs && Attributed(docs, entries)
    requires Distinct(order) && forall t :: t in order ==> t in entries
    ensures var docs' := PassContracts(docs, entries, registry, fetched, order);
            && Attributed(docs', PassEntries(docs, entries, registry, fetched, order))
            && (Blank !in entries && UnclaimedBare(docs) ==> UnclaimedBare(docs'))
    decreases |order|
  {
    if order != [] {
      var before, t := order[..|order| - 1], order[|order| - 1];
      assert order == before + [t];
      DistinctLast(before, t);
      RefreshKeepsAttribution(docs, entries, registry, fetched, before);
      PassKeys(docs, entries, registry, fetched, before);
      EntriesElsewhere(docs, entries, registry, fetched, before, t);
      LastKeepsAttribution(docs, entries, registry, fetched, before, t,
                           PassContracts(docs, entries, registry, fetched, before),
                           PassEntries(docs, entries, registry, fetched, before));
    }
  }

  lemma LastKeepsAttribution(docs: Contracts, entries: Entries, registry: Registry, fetched: Fetch,
                             before: seq<Address>,
                             t: Address, docs1: Contracts, entries1: Entries)
    requires (forall u :: u in before ==> u in entries) && t in entries && t in entries1
    requires docs1 == PassContracts(docs, entries, registry, fetched, before) && Blank !in docs1
    requires entries1 == PassEntries(docs, entries, registry, fetched, before) && entries1[t] == entries[t]
    requires Attributed(docs1, entries1)
    ensures Attributed(PassContracts(docs, entries, registry, fetched, before + [t]),
                       PassEntries(docs, entries, registry, fetched, before + [t]))
    ensures t != Blank && UnclaimedBare(docs1) ==>
              UnclaimedBare(PassContracts(docs, entries, registry, fetched, before + [t]))
  {
    PassLast(docs, entries, registry, fetched, before, t);
    TurnKeepsAttribution(docs1, entries1, t, TurnOf(registry, fetched, t));
    if t != Blank && UnclaimedBare(docs1) { TurnKeepsBare(docs1, entries1[t], t, TurnOf(registry, fetched, t)); }
  }

  // ---------------------------------------------------------------- refresh after refresh

  // One refresh: what its fetches give, and the order in which the entries have their turns.
  datatype Round = Round(fetched: Fetch, order: seq<Address>)

  ghost predicate Complete(entries: Entries, rounds: seq<Round>) {
    forall r <- rounds :: Lists(r.order, entries)
  }

  // The documents and entries after the refreshes; the metadata are the same in all.
  ghost function AfterRounds(docs: Contracts, entries: Entries, registry: Registry, rounds: seq<Round>)
      : (Contracts, Entries)
    requires Complete(entries, rounds)
    decreases |rounds|
  {
    if rounds == [] then (docs, entries)
    else
      AfterRounds(PassContracts(docs, entries, registry, rounds[0].fetched, rounds[0].order),
                  PassEntries(docs, entries, registry, rounds[0].fetched, rounds[0].order), registry, rounds[1..])
  }

  ghost predicate Settled(entries: Entries, registry: Registry) {
    forall t | t in entries :: entries[t] == registry.target(t)
  }

  lemma PlaceOf(order: seq<Address>, t: Address) returns (before: seq<Address>, after: seq<Address>)
    requires t in order
    ensures order == before + [t] + after
  {
    var i :| 0 <= i < |order| && order[i] == t;
    before, after := order[..i], order[i + 1..];
  }

  // Once settled nobody gives anything up.
  lemma SettledPass(docs: Contracts, entries: Entries, registry: Registry, r: Round, t: Address)
    requires Present(docs, entries, registry) && SingleTargets(entries, registry) && Settled(entries, registry)
    requires Lists(r.order, entries) && t in entries && registry.target(t) != Blank
    ensures PassEntries(docs, entries, registry, r.fetched, r.order) == entries
    ensures var c, docs' := registry.target(t), PassContracts(docs, entries, registry, r.fetched, r.order);
            docs'.Keys == docs.Keys && c in docs && docs'[c] == Taken(docs[c], t, TurnOf(registry, r.fetched, t))
  {
    PassSettles(docs, entries, registry, r.fetched, r.order);
    PassKeys(docs, entries, registry, r.fetched, r.order);
    var before, after := PlaceOf(r.order, t);
    PassTarget(docs, entries, registry, r.fetched, before, t, after);
  }

  // From then on the first fetch stays if there is a URL, and the last if there is none.
  lemma {:induction false} SettledRounds(docs: Contracts, entries: Entries, registry: Registry, rounds: seq<Round>,
                                         t: Address)
    requires Present(docs, entries, registry) && SingleTargets(entries, registry) && Settled(entries, registry)
    requires Complete(entries, rounds) && rounds != [] && t in entries && registry.target(t) != Blank
    ensures var c, (docs', entries') := registry.target(t), AfterRounds(docs, entries, registry, rounds);
            && entries' == entries && c in docs && c in docs'
            && docs'[c] == (var r := if registry.codeUrl(t) == NoUrl then rounds[|rounds| - 1] else rounds[0];
                            Taken(docs[c], t, TurnOf(registry, r.fetched, t)))
    decreases |rounds|
  {
    SettledPass(docs, entries, registry, rounds[0], t);
    if |rounds| > 1 {
      SettledRounds(PassContracts(docs, entries, registry, rounds[0].fetched, rounds[0].order), entries, registry,
                    rounds[1..], t);
    }
  }

  // What one refresh makes of t's target, when the entries have their turns in this order.
  ghost function Turned(docs: Contracts, entries: Entries, registry: Registry, fetched: Fetch,
                        before: seq<Address>, t: Address, after: seq<Address>): ContractDoc
    requires registry.target(t) in docs
  {
    var c := registry.target(t);
    if GivenUp(entries, registry, after, c) then UNVERIFIED
    else Taken(if GivenUp(entries, registry, before, c) then UNVERIFIED else docs[c], t, TurnOf(registry, fetched, t))
  }

  lemma FirstRound(docs: Contracts, entries: Entries, registry: Registry, r: Round,
                   before: seq<Address>, t: Address, after: seq<Address>)
    requires Present(docs, entries, registry) && SingleTargets(entries, registry)
    requires Lists(r.order, entries) && r.order == before + [t] + after && t in entries && registry.target(t) != Blank
    ensures var docs', entries' := PassContracts(docs, entries, registry, r.fetched, r.order),
                                   PassEntries(docs, entries, registry, r.fetched, r.order);
            && entries'.Keys == entries.Keys
            && Present(docs', entries', registry) && SingleTargets(entries', registry) && Settled(entries', registry)
            && registry.target(t) in docs && registry.target(t) in docs'
            && docs'[registry.target(t)] == Turned(docs, entries, registry, r.fetched, before, t, after)
  {
    PassTarget(docs, entries, registry, r.fetched, before, t, after);
    PassSettles(docs, entries, registry, r.fetched, r.order);
    PassKeys(docs, entries, registry, r.fetched, r.order);
  }

  // The refresh whose fetch decides, if any does: the last one without a URL; with one,
  // the second if an entry after t in the first gives t's target up; else the first,
  // unless the target has this URL and keeps it to t's turn.
  ghost function Deciding(docs: Contracts, entries: Entries, registry: Registry,
                          before: seq<Address>, t: Address, after: seq<Address>, rounds: nat): (r: Option<nat>)
    requires rounds >= 2 && registry.target(t) in docs
    ensures r.Some? ==> r.value < rounds
  {
    var c := registry.target(t);
    if registry.codeUrl(t) == NoUrl then Some(rounds - 1)
    else if GivenUp(entries, registry, after, c) then Some(1)
    else if GivenUp(entries, registry, before, c) || docs[c].codeUrl != registry.codeUrl(t) then Some(0)
    else None
  }

  ghost function Decided(docs: Contracts, entries: Entries, registry: Registry, rounds: seq<Round>,
                         before: seq<Address>, t: Address, after: seq<Address>): ContractDoc
    requires |rounds| >= 2 && registry.target(t) in docs
  {
    match Deciding(docs, entries, registry, before, t, after, |rounds|)
    case Some(k) => Marking(t, TurnOf(registry, rounds[k].fetched, t))
    case None => docs[registry.target(t)]
  }

  function LastWord(registry: Registry, rounds: seq<Round>, t: Address): Fetch
    requires |rounds| >= 2
  {
    (if registry.codeUrl(t) == NoUrl then rounds[|rounds| - 1] else rounds[1]).fetched
  }

  // The first refresh and then the rest.
  lemma TurnedThenDecided(docs: Contracts, entries: Entries, registry: Registry, rounds: seq<Round>,
                          before: seq<Address>, t: Address, after: seq<Address>)
    requires |rounds| >= 2 && registry.target(t) in docs
    ensures Taken(Turned(docs, entries, registry, rounds[0].fetched, before, t, after), t,
                  TurnOf(registry, LastWord(registry, rounds, t), t))
            == Decided(docs, entries, registry, rounds, before, t, after)
  {
  }

  lemma SameLists(entries: Entries, entries1: Entries, rounds: seq<Round>)
    requires Complete(entries, rounds) && entries1.Keys == entries.Keys && rounds != []
    ensures Complete(entries1, rounds[1..])
  {
    forall r | r in rounds[1..]
      ensures Lists(r.order, entries1)
    {
      assert Lists(r.order, entries);
    }
  }

  // Where the refreshes after the first lead from what it left.
  lemma LaterRounds(docs1: Contracts, entries1: Entries, registry: Registry, rounds: seq<Round>, t: Address)
    requires |rounds| >= 2 && Complete(entries1, rounds[1..])
    requires Present(docs1, entries1, registry) && SingleTargets(entries1, registry) && Settled(entries1, registry)
    requires t in entries1 && registry.target(t) != Blank
    ensures var c, (docs', entries') := registry.target(t), AfterRounds(docs1, entries1, registry, rounds[1..]);
            && entries' == entries1 && c in docs1 && c in docs'
            && docs'[c] == Taken(docs1[c], t, TurnOf(registry, LastWord(registry, rounds, t), t))
  {
    var later := rounds[1..];
    assert later[|later| - 1] == rounds[|rounds| - 1] && later[0] == rounds[1];
    SettledRounds(docs1, entries1, registry, later, t);
  }

  // Refreshes of all entries, with stable metadata, all named documents there and single
  // targets: from the second on, every target is what the deciding fetch made it.
  lemma DecidingFetch(docs: Contracts, entries: Entries, registry: Registry, rounds: seq<Round>,
                      before: seq<Address>, t: Address, after: seq<Address>)
    requires Present(docs, entries, registry) && SingleTargets(entries, registry)
    requires Complete(entries, rounds) && |rounds| >= 2 && rounds[0].order == before + [t] + after
    requires t in entries && registry.target(t) != Blank
    ensures var (docs', entries') := AfterRounds(docs, entries, registry, rounds);
            && Settled(entries', registry) && entries'.Keys == entries.Keys
            && registry.target(t) in docs && registry.target(t) in docs'
            && docs'[registry.target(t)] == Decided(docs, entries, registry, rounds, before, t, after)
  {
    var first := rounds[0];
    FirstRound(docs, entries, registry, first, before, t, after);
    var docs1, entries1 := PassContracts(docs, entries, registry, first.fetched, first.order),
                           PassEntries(docs, entries, registry, first.fetched, first.order);
    SameLists(entries, entries1, rounds);
    LaterRounds(docs1, entries1, registry, rounds, t);
    TurnedThenDecided(docs, entries, registry, rounds, before, t, after);
  }

  // The same field by field: the decided document says verified if code was fetched, and
  // carries the token, the URL and that code.
  lemma DecidedFields(docs: Contracts, entries: Entries, registry: Registry, rounds: seq<Round>,
                      before: seq<Address>, t: Address, after: seq<Address>)
    requires Present(docs, entries, registry) && SingleTargets(entries, registry)
    requires Complete(entries, rounds) && |rounds| >= 2 && rounds[0].order == before + [t] + after
    requires t in entries && registry.target(t) != Blank
    ensures var c, docs' := registry.target(t), AfterRounds(docs, entries, registry, rounds).0;
            && c in docs && c in docs'
            && match Deciding(docs, entries, registry, before, t, after, |rounds|)
               case Some(k) =>
                 (match rounds[k].fetched(t)
                  case Some(code) => docs'[c] == ContractDoc(code != "", t, registry.codeUrl(t), code)
                  case None => docs'[c] == ContractDoc(false, t, registry.codeUrl(t), ""))
               case None => docs'[c] == docs[c]
  {
    DecidingFetch(docs, entries, registry, rounds, before, t, after);
  }

  // A contract comes to be verified, and stays so, exactly when that fetch brings code,
  // or when it was verified and no fetch decides.
  lemma VerifiedIffDecidingFetch(docs: Contracts, entries: Entries, registry: Registry, rounds: seq<Round>,
                                 before: seq<Address>, t: Address, after: seq<Address>)
    requires Present(docs, entries, registry) && SingleTargets(entries, registry)
    requires Complete(entries, rounds) && |rounds| >= 2 && rounds[0].order == before + [t] + after
    requires t in entries && registry.target(t) != Blank
    ensures var c, docs' := registry.target(t), AfterRounds(docs, entries, registry, rounds).0;
            && c in docs && c in docs'
            && (docs'[c].verified
                <==> match Deciding(docs, entries, registry, before, t, after, |rounds|)
                     case Some(k) => Fetches(TurnOf(registry, rounds[k].fetched, t))
                     case None => docs[c].verified)
  {
    DecidingFetch(docs, entries, registry, rounds, before, t, after);
  }

  lemma HolderGivesUp(docs: Contracts, entries: Entries, registry: Registry, order: seq<Address>, t: Address)
    requires SingleTargets(entries, registry) && Attributed(docs, entries) && Lists(order, entries) && t in entries
    requires registry.target(t) in docs && registry.target(t) != Blank
    ensures var u := docs[registry.target(t)].token;
            u == Blank || u == t || (u in order && GivesUp(entries, registry, u, registry.target(t)))
  {
  }

  lemma DecidedCarries(docs: Contracts, entries: Entries, registry: Registry, rounds: seq<Round>,
                       before: seq<Address>, t: Address, after: seq<Address>)
    requires SingleTargets(entries, registry) && Attributed(docs, entries) && UnclaimedBare(docs)
    requires |rounds| >= 2 && Lists(before + [t] + after, entries) && t in entries
    requires registry.target(t) in docs && registry.target(t) != Blank
    ensures Decided(docs, entries, registry, rounds, before, t, after).token == t
  {
    HolderGivesUp(docs, entries, registry, before + [t] + after, t);
    var u := docs[registry.target(t)].token;
    assert u in before + [t] + after && u != t ==> u in before || u in after;
  }

  // Two refreshes suffice: from attributed documents, every target then carries its token.
  lemma TwoRoundsAttribute(docs: Contracts, entries: Entries, registry: Registry, rounds: seq<Round>, t: Address)
    requires Present(docs, entries, registry) && SingleTargets(entries, registry) && Attributed(docs, entries)
             && UnclaimedBare(docs)
    requires Complete(entries, rounds) && |rounds| >= 2 && t in entries && registry.target(t) != Blank
    ensures var c, docs' := registry.target(t), AfterRounds(docs, entries, registry, rounds).0;
            c in docs' && docs'[c].token == t
  {
    var before, after := PlaceOf(rounds[0].order, t);
    DecidingFetch(docs, entries, registry, rounds, before, t, after);
    DecidedCarries(docs, entries, registry, rounds, before, t, after);
  }

  // Exactly when one is enough: no entry after t gives its target up.
  lemma OneRoundAttributesIff(docs: Contracts, entries: Entries, registry: Registry, r: Round,
                              before: seq<Address>, t: Address, after: seq<Address>)
    requires Present(docs, entries, registry) && SingleTargets(entries, registry) && Attributed(docs, entries)
             && UnclaimedBare(docs)
    requires Lists(r.order, entries) && r.order == before + [t] + after
    requires t in entries && t != Blank && registry.target(t) != Blank
    ensures var c, docs' := registry.target(t), PassContracts(docs, entries, registry, r.fetched, r.order);
            c in docs' && (docs'[c].token == t <==> !GivenUp(entries, registry, after, c))
  {
    var c := registry.target(t);
    PassTarget(docs, entries, registry, r.fetched, before, t, after);
    HolderGivesUp(docs, entries, registry, r.order, t);
  }

  // An instance: t1's fetch of b's code fails, then t2 gives b up; in the next refresh t1
  // fetches again under the same URL and b is verified.
  lemma GivenUpIsFetchedAgain(t1: Address, t2: Address, a: Address, b: Address, url: Url, code: string,
                              registry: Registry)
    requires t1 != t2 && a != b && a != Blank && b != Blank && url != NoUrl && code != ""
    requires registry.target(t1) == b && registry.target(t2) == a && registry.codeUrl(t1) == url
    ensures var docs, entries := map[a := UNVERIFIED, b := UNVERIFIED.(token := t2)], map[t1 := Blank, t2 := b];
            var rounds := [Round(_ => None, [t1, t2]), Round(_ => Some(code), [t1, t2])];
            && Complete(entries, rounds)
            && var docs' := AfterRounds(docs, entries, registry, rounds).0;
               b in docs' && docs'[b].verified
  {
    var docs, entries := map[a := UNVERIFIED, b := UNVERIFIED.(token := t2)], map[t1 := Blank, t2 := b];
    var rounds := [Round(_ => None, [t1, t2]), Round(_ => Some(code), [t1, t2])];
    assert [t1, t2] == [] + [t1] + [t2];
    assert GivesUp(entries, registry, t2, b);
    DecidingFetch(docs, entries, registry, rounds, [], t1, [t2]);
  }
}
