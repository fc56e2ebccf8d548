// Documents that several heights write, in whatever order the miners reach them:
// addNFT and addAccountBalance of indexer/dto.go.

module Upserts {
  import opened Wrappers

  datatype Nft = Nft(blockNo: nat, timestamp: int, account: string, tokenUri: string, imageUrl: string)

  datatype Balance = Balance(blockNo: nat, timestamp: int, balance: string, balanceFloat: real,
                             staking: string, stakingFloat: real)

  // The two indices by document id. Each call is one step: the select and the write that
  // follows it are not interleaved with another call's.
  class Db {
    var nfts: map<string, Nft>
    var balances: map<string, Balance>

    constructor ()
      ensures nfts == map[] && balances == map[]
    {
      nfts, balances := map[], map[];
    }

    method AddNFT(id: string, nft: Nft)
      modifies this`nfts
      ensures nfts.Keys == old(nfts).Keys + {id} && forall x | x in old(nfts) && x != id :: nfts[x] == old(nfts)[x]
      ensures nfts[id] == NextNft(if id in old(nfts) then Some(old(nfts)[id]) else None, nft)
    {
      if id in nfts {
        if nft.blockNo > nfts[id].blockNo {
          nfts := nfts[id := nft];
        }
      } else {
        nfts := nfts[id := nft];
      }
    }

    method AddAccountBalance(id: string, balance: Balance)
      modifies this`balances
      ensures forall x | x != id ::
                (x in balances <==> x in old(balances)) && (x in balances ==> balances[x] == old(balances)[x])
      ensures (if id in balances then Some(balances[id]) else None)
              == NextBalance(if id in old(balances) then Some(old(balances)[id]) else None, balance)
    {
      if id in balances {
        var doc := balance;
        if doc.blockNo < balances[id].blockNo {
          doc := doc.(blockNo := balances[id].blockNo, timestamp := balances[id].timestamp);
        }
        balances := balances[id := doc];
      } else if balance.balanceFloat > 0.0 {
        balances := balances[id := balance];
      }
    }

    // One id's documents in the order in which they are processed.
    method AddNFTs(id: string, docs: seq<Nft>)
      requires id !in nfts && docs != []
      modifies this`nfts
      ensures id in nfts && IsLatest(docs, nfts[id])
    {
      var i := 0;
      while i < |docs|
        invariant 0 <= i <= |docs|
        invariant (if id in nfts then Some(nfts[id]) else None) == StoredNft(docs[..i])
      {
        assert docs[..i + 1][..i] == docs[..i];
        AddNFT(id, docs[i]);
        i := i + 1;
      }
      assert docs[..i] == docs;
      StoredNftIsLatest(docs);
    }

    method AddAccountBalances(id: string, docs: seq<Balance>)
      requires id !in balances
      modifies this`balances
      ensures id in balances <==> exists i :: 0 <= i < |docs| && docs[i].balanceFloat > 0.0
      ensures id in balances ==> exists p: nat, k: nat :: Reports(docs, p, k, balances[id])
    {
      var i := 0;
      while i < |docs|
        invariant 0 <= i <= |docs|
        invariant (if id in balances then Some(balances[id]) else None) == StoredBalance(docs[..i])
      {
        assert docs[..i + 1][..i] == docs[..i];
        AddAccountBalance(id, docs[i]);
        i := i + 1;
      }
      assert docs[..i] == docs;
      StoredBalanceIs(docs);
    }
  }

  // ---------------------------------------------------------------- NFTs

  // What one call of addNFT leaves stored.
  function NextNft(stored: Option<Nft>, doc: Nft): Nft {
    if stored.Some? && doc.blockNo <= stored.value.blockNo then stored.value else doc
  }

  // What is stored once docs have been processed in order.
  function StoredNft(docs: seq<Nft>): Option<Nft>
    decreases |docs|
  {
    if docs == [] then None else Some(NextNft(StoredNft(docs[..|docs| - 1]), docs[|docs| - 1]))
  }

  // doc is the first processed of those with the greatest block number.
  predicate FirstLatestAt(docs: seq<Nft>, k: nat) {
    && k < |docs|
    && (forall i | 0 <= i < |docs| :: docs[i].blockNo <= docs[k].blockNo)
    && (forall i | 0 <= i < k :: docs[i].blockNo < docs[k].blockNo)
  }

  ghost predicate IsLatest(docs: seq<Nft>, doc: Nft) {
    exists k: nat :: FirstLatestAt(docs, k) && docs[k] == doc
  }

  lemma {:induction false} StoredNftIsLatest(docs: seq<Nft>)
    requires docs != []
    ensures IsLatest(docs, StoredNft(docs).value)
    decreases |docs|
  {
    var before, doc := docs[..|docs| - 1], docs[|docs| - 1];
    assert docs == before + [doc];
    if before == [] {
      assert FirstLatestAt(docs, 0) && docs[0] == StoredNft(docs).value;
    } else {
      StoredNftIsLatest(before);
      var k: nat :| FirstLatestAt(before, k) && before[k] == StoredNft(before).value;
      if doc.blockNo <= before[k].blockNo {
        assert FirstLatestAt(docs, k) && docs[k] == StoredNft(docs).value;
      } else {
        assert FirstLatestAt(docs, |docs| - 1) && docs[|docs| - 1] == StoredNft(docs).value;
      }
    }
  }

  lemma SameMembers(docs: seq<Nft>, docs': seq<Nft>, k: nat) returns (j: nat)
    requires multiset(docs) == multiset(docs') && k < |docs|
    ensures j < |docs'| && docs'[j] == docs[k]
  {
    assert docs[k] in multiset(docs');
    j :| 0 <= j < |docs'| && docs'[j] == docs[k];
  }

  lemma LatestAgree(docs: seq<Nft>, docs': seq<Nft>, k: nat, k': nat, i: nat, j: nat)
    requires forall a, b | 0 <= a < b < |docs| :: docs[a].blockNo != docs[b].blockNo
    requires FirstLatestAt(docs, k) && FirstLatestAt(docs', k')
    requires i < |docs'| && docs'[i] == docs[k] && j < |docs| && docs[j] == docs'[k']
    ensures docs[k] == docs'[k']
  {
    assert docs[j].blockNo == docs[k].blockNo;
  }

  // Out-of-order mining converges: with distinct block numbers the stored document does
  // not depend on the order of processing.
  lemma NftOrderIrrelevant(docs: seq<Nft>, docs': seq<Nft>)
    requires multiset(docs) == multiset(docs') && docs != [] && docs' != []
    requires forall i, j | 0 <= i < j < |docs| :: docs[i].blockNo != docs[j].blockNo
    ensures StoredNft(docs) == StoredNft(docs')
  {
    StoredNftIsLatest(docs);
    StoredNftIsLatest(docs');
    var k: nat :| FirstLatestAt(docs, k) && docs[k] == StoredNft(docs).value;
    var k': nat :| FirstLatestAt(docs', k') && docs'[k'] == StoredNft(docs').value;
    var i := SameMembers(docs, docs', k);
    var j := SameMembers(docs', docs, k');
    LatestAgree(docs, docs', k, k', i, j);
  }

  // ---------------------------------------------------------------- balances

  // What one call of addAccountBalance leaves stored.
  function NextBalance(stored: Option<Balance>, doc: Balance): Option<Balance> {
    match stored
    case None => if doc.balanceFloat > 0.0 then Some(doc) else None
    case Some(was) =>
      Some(if doc.blockNo < was.blockNo then doc.(blockNo := was.blockNo, timestamp := was.timestamp) else doc)
  }

  function StoredBalance(docs: seq<Balance>): Option<Balance>
    decreases |docs|
  {
    if docs == [] then None else NextBalance(StoredBalance(docs[..|docs| - 1]), docs[|docs| - 1])
  }

  // docs from position p on are the first positive balance and what came after it.
  predicate FirstPositiveAt(docs: seq<Balance>, p: nat) {
    p < |docs| && docs[p].balanceFloat > 0.0 && forall i | 0 <= i < p :: docs[i].balanceFloat <= 0.0
  }

  // Of docs[p..], position k is the last with the greatest block number.
  predicate LastLatestAt(docs: seq<Balance>, p: nat, k: nat) {
    && p <= k < |docs|
    && (forall i | p <= i < |docs| :: docs[i].blockNo <= docs[k].blockNo)
    && (forall i | k < i < |docs| :: docs[i].blockNo < docs[k].blockNo)
  }

  predicate Reports(docs: seq<Balance>, p: nat, k: nat, stored: Balance) {
    && FirstPositiveAt(docs, p) && LastLatestAt(docs, p, k)
    && stored == docs[|docs| - 1].(blockNo := docs[k].blockNo, timestamp := docs[k].timestamp)
  }

  // Nothing is stored before the first positive balance; from there on the stored
  // document has the balances of the last document processed, and the block number and
  // timestamp of the latest block.
  lemma {:induction false} StoredBalanceIs(docs: seq<Balance>)
    ensures StoredBalance(docs).None? <==> forall i | 0 <= i < |docs| :: docs[i].balanceFloat <= 0.0
    ensures StoredBalance(docs).Some? ==> exists p: nat, k: nat :: Reports(docs, p, k, StoredBalance(docs).value)
    decreases |docs|
  {
    if docs != [] {
      var before, doc, last := docs[..|docs| - 1], docs[|docs| - 1], |docs| - 1;
      assert docs == before + [doc];
      StoredBalanceIs(before);
      if StoredBalance(before).None? {
        if doc.balanceFloat > 0.0 {
          assert Reports(docs, last, last, doc);
        }
      } else {
        var p: nat, k: nat :| Reports(before, p, k, StoredBalance(before).value);
        assert Reports(docs, p, if doc.blockNo < before[k].blockNo then k else last, StoredBalance(docs).value);
      }
    }
  }
}
