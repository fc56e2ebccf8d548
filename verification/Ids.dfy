// The composite document ids of indexer/documents/conv.go.

module Ids {
  // ---------------------------------------------------------------- decimal numbers

  function Digit(d: nat): char
    requires d < 10
  {
    "0123456789"[d]
  }

  // %d of an unsigned number.
  function Decimal(n: nat): string {
    if n < 10 then [Digit(n)] else Decimal(n / 10) + [Digit(n % 10)]
  }

  // %d of a signed number.
  function Signed(i: int): string {
    if i < 0 then "-" + Decimal(-i) else Decimal(i)
  }

  function Value(c: char): nat {
    if '0' <= c <= '9' then c as nat - '0' as nat else 0
  }

  function Parse(s: string): nat {
    if s == "" then 0 else 10 * Parse(s[..|s| - 1]) + Value(s[|s| - 1])
  }

  function ParseSigned(s: string): int {
    if s != "" && s[0] == '-' then 0 - (Parse(s[1..]) as int) else Parse(s)
  }

  predicate Undashed(s: string) {
    '-' !in s
  }

  lemma {:induction false} DecimalRoundTrip(n: nat)
    ensures Parse(Decimal(n)) == n
    ensures Decimal(n) != "" && Undashed(Decimal(n))
    decreases n
  {
    assert forall d: nat | d < 10 :: Value(Digit(d)) == d && Digit(d) != '-';
    if n < 10 {
      assert Parse([Digit(n)]) == 10 * Parse([]) + Value(Digit(n)) by { assert [Digit(n)][..0] == []; }
    } else {
      DecimalRoundTrip(n / 10);
      var s := Decimal(n);
      assert s[..|s| - 1] == Decimal(n / 10);
    }
  }

  lemma SignedRoundTrip(i: int)
    ensures ParseSigned(Signed(i)) == i
  {
    DecimalRoundTrip(if i < 0 then -i else i);
    if i < 0 {
      assert Signed(i)[1..] == Decimal(-i);
    } else {
      assert Signed(i)[0] in Decimal(i);
    }
  }

  // ---------------------------------------------------------------- joining with dashes

  function Join(a: string, b: string): string {
    a + "-" + b
  }

  // The parts before and after the first dash.
  function SplitFirst(s: string): (string, string) {
    if s == "" then ("", "")
    else if s[0] == '-' then ("", s[1..])
    else
      var (a, b) := SplitFirst(s[1..]);
      ([s[0]] + a, b)
  }

  // The parts before and after the last dash.
  function SplitLast(s: string): (string, string) {
    if s == "" then ("", "")
    else if s[|s| - 1] == '-' then (s[..|s| - 1], "")
    else
      var (a, b) := SplitLast(s[..|s| - 1]);
      (a, b + [s[|s| - 1]])
  }

  lemma {:induction false} SplitFirstJoin(a: string, b: string)
    requires Undashed(a)
    ensures SplitFirst(Join(a, b)) == (a, b)
    decreases |a|
  {
    var s := Join(a, b);
    if a == "" {
      assert s[1..] == b;
    } else {
      assert s[1..] == Join(a[1..], b);
      SplitFirstJoin(a[1..], b);
      assert a == [a[0]] + a[1..];
    }
  }

  lemma {:induction false} SplitLastJoin(a: string, b: string)
    requires Undashed(b)
    ensures SplitLast(Join(a, b)) == (a, b)
    decreases |b|
  {
    var s := Join(a, b);
    if b == "" {
      assert s[..|s| - 1] == a;
    } else {
      assert s[..|s| - 1] == Join(a, b[..|b| - 1]);
      SplitLastJoin(a, b[..|b| - 1]);
      assert b == b[..|b| - 1] + [b[|b| - 1]];
    }
  }

  // ---------------------------------------------------------------- the ids

  // ConvEvent: block number, transaction index, event index. The last is an int32.
  function EventId(blockNo: nat, txIdx: nat, eventIdx: int): string {
    Join(Decimal(blockNo), Join(Decimal(txIdx), Signed(eventIdx)))
  }

  // ConvTokenTransfer: transaction id and event index.
  function TransferId(txId: string, idx: int): string {
    Join(txId, Signed(idx))
  }

  // ConvNFT: token contract and token id.
  function NftId(tokenAddress: string, tokenId: string): string {
    Join(tokenAddress, tokenId)
  }

  // ConvAccountTokens: account and token contract.
  function AccountTokensId(account: string, tokenAddress: string): string {
    Join(account, tokenAddress)
  }

  // ConvName: registered name and transaction hash.
  function NameId(name: string, hash: string): string {
    Join(name, hash)
  }

  function DecodeEventId(id: string): (nat, nat, int) {
    var (block, rest) := SplitFirst(id);
    var (tx, event) := SplitFirst(rest);
    (Parse(block), Parse(tx), ParseSigned(event))
  }

  lemma EventIdDecodes(blockNo: nat, txIdx: nat, eventIdx: int)
    ensures DecodeEventId(EventId(blockNo, txIdx, eventIdx)) == (blockNo, txIdx, eventIdx)
  {
    DecimalRoundTrip(blockNo);
    DecimalRoundTrip(txIdx);
    SignedRoundTrip(eventIdx);
    SplitFirstJoin(Decimal(blockNo), Join(Decimal(txIdx), Signed(eventIdx)));
    SplitFirstJoin(Decimal(txIdx), Signed(eventIdx));
  }

  // Transaction ids are base58 and hold no dash.
  lemma TransferIdDecodes(txId: string, idx: int)
    requires Undashed(txId)
    ensures var (tx, i) := SplitFirst(TransferId(txId, idx)); tx == txId && ParseSigned(i) == idx
  {
    SplitFirstJoin(txId, Signed(idx));
    SignedRoundTrip(idx);
  }

  // Token ids are free text; the contract before them holds no dash.
  lemma NftIdDecodes(tokenAddress: string, tokenId: string)
    requires Undashed(tokenAddress)
    ensures SplitFirst(NftId(tokenAddress, tokenId)) == (tokenAddress, tokenId)
  {
    SplitFirstJoin(tokenAddress, tokenId);
  }

  // Accounts come from event arguments; the contract after them holds no dash.
  lemma AccountTokensIdDecodes(account: string, tokenAddress: string)
    requires Undashed(tokenAddress)
    ensures SplitLast(AccountTokensId(account, tokenAddress)) == (account, tokenAddress)
  {
    SplitLastJoin(account, tokenAddress);
  }

  // Names are free text; the hash after them holds no dash.
  lemma NameIdDecodes(name: string, hash: string)
    requires Undashed(hash)
    ensures SplitLast(NameId(name, hash)) == (name, hash)
  {
    SplitLastJoin(name, hash);
  }

  // Without that, two accounts could share an id.
  lemma DashedPartsCollide()
    ensures AccountTokensId("a-b", "c") == AccountTokensId("a", "b-c")
  {
    assert AccountTokensId("a-b", "c") == "a-b-c";
    assert AccountTokensId("a", "b-c") == "a-b-c";
  }

  // The ids as they are stored.
  lemma IdsAreWritten(blockNo: nat, txIdx: nat, eventIdx: int, a: string, b: string)
    ensures EventId(blockNo, txIdx, eventIdx) == Decimal(blockNo) + "-" + Decimal(txIdx) + "-" + Signed(eventIdx)
    ensures TransferId(a, eventIdx) == a + "-" + Signed(eventIdx)
    ensures NftId(a, b) == a + "-" + b && AccountTokensId(a, b) == a + "-" + b && NameId(a, b) == a + "-" + b
    ensures Signed(-120) == "-120" && Decimal(0) == "0" && Decimal(120) == "120"
  {
    assert Decimal(1) == "1" && Decimal(12) == "12" && Decimal(120) == "120";
  }
}
