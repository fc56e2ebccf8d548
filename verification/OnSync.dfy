// Following the block stream: SyncBlock and sleepStream of indexer/run_onsync.go, and
// how the stream and the check of mode "all" share the chain (indexer/indexer.go).

module OnSync {
  import opened Sequences
  import opened Wrappers
  import opened UInt64

  datatype Action =
    | Mine(h: uint64)                   // the height goes to the miner
    | Delete(from: uint64, to: uint64)  // DeleteBlocksInRange

  // What GetBestBlockFromDb answers: None when it fails.
  type Best = Option<uint64>

  // The heights a block of height n fills in before itself.
  function Fill(last: uint64, n: uint64): seq<Action> {
    var from := Add(last, 1);
    if n > from then seq(n - from, i requires 0 <= i < n - from => Mine(from + i)) else []
  }

  // The greatest height a sleep has seen.
  function Highest(start: uint64, polls: seq<Best>): uint64 {
    if polls == [] then start
    else
      var h, p := Highest(start, polls[..|polls| - 1]), polls[|polls| - 1];
      if p.Some? && p.value > h then p.value else h
  }

  lemma NotInFill(last: uint64, n: uint64)
    ensures Mine(n) !in Fill(last, n)
  {
  }

  // Poll k ends a sleep that began on block start: every answer before it rises above start
  // and the answers before, and its own does not.
  ghost predicate WakesAt(start: uint64, polls: seq<Best>, k: nat) {
    && k < |polls| && polls[k].Some?
    && (forall j | 0 <= j < k && polls[j].Some? :: polls[j].value > start)
    && (forall i, j | 0 <= i < j < k && polls[i].Some? && polls[j].Some? :: polls[i].value < polls[j].value)
    && (polls[k].value <= start || exists j :: 0 <= j < k && polls[j].Some? && polls[k].value <= polls[j].value)
  }

  class Indexer {
    var lastHeight: uint64
    var log: seq<Action>

    constructor (lastHeight: uint64)
      ensures this.lastHeight == lastHeight && log == []
    {
      this.lastHeight := lastHeight;
      log := [];
    }

    // Polls the database until its best block stops rising; polls lists the answers. Asleep,
    // every answer has been above blockNo and above those before it; the first that is not
    // ends the sleep and becomes lastHeight.
    method SleepStream(blockNo: uint64, polls: seq<Best>) returns (awake: bool)
      modifies this
      ensures log == old(log)
      ensures !awake ==>
                && lastHeight == old(lastHeight)
                && (forall j | 0 <= j < |polls| && polls[j].Some? :: polls[j].value > blockNo)
                && forall i, j | 0 <= i < j < |polls| && polls[i].Some? && polls[j].Some? ::
                     polls[i].value < polls[j].value
      ensures awake ==> exists k: nat :: k < |polls| && WakesAt(blockNo, polls, k) && polls[k] == Some(lastHeight)
    {
      var current := blockNo;
      var i := 0;
      while i < |polls|
        invariant 0 <= i <= |polls|
        invariant log == old(log) && lastHeight == old(lastHeight)
        invariant blockNo <= current && (current == blockNo || Some(current) in polls[..i])
        invariant forall j | 0 <= j < i && polls[j].Some? :: blockNo < polls[j].value <= current
        invariant forall j, k | 0 <= j < k < i && polls[j].Some? && polls[k].Some? :: polls[j].value < polls[k].value
      {
        var best := polls[i];
        assert polls[..i + 1] == polls[..i] + [best];
        if best.Some? {
          if current >= best.value {
            lastHeight := best.value;
            assert WakesAt(blockNo, polls, i);
            return true;
          } else {
            current := best.value;
          }
        }
        i := i + 1;
      }
      return false;
    }

    // probe is None when the clock does not ask for the database's best block. The stream
    // sleeps when the answer reaches the new block, which another instance has then indexed.
    method SyncBlock(newHeight: uint64, probe: Option<Best>, polls: seq<Best>) returns (awake: bool)
      modifies this
      // A rewind.
      ensures newHeight < old(lastHeight) ==>
                awake && lastHeight == newHeight && log == old(log) + [Delete(newHeight + 1, old(lastHeight))]
      // Otherwise, no best block that reaches the new one.
      ensures newHeight >= old(lastHeight)
              && (probe.None? || probe.value.None? || probe.value.value < newHeight) ==>
                && awake && lastHeight == newHeight
                && log == old(log) + Fill(old(lastHeight), newHeight) + [Mine(newHeight)]
      // Otherwise, one that does.
      ensures newHeight >= old(lastHeight) && probe.Some? && probe.value.Some? && probe.value.value >= newHeight ==>
                && log == old(log) + Fill(old(lastHeight), newHeight)
                && (awake ==>
                      exists k: nat :: k < |polls| && WakesAt(newHeight, polls, k) && polls[k] == Some(lastHeight))
                && (!awake ==> lastHeight == old(lastHeight)
                               && forall j | 0 <= j < |polls| && polls[j].Some? :: polls[j].value > newHeight)
      // The new block itself is sent, once, exactly in the former case.
      ensures newHeight >= old(lastHeight) ==>
                |log| >= |old(log)| && log[..|old(log)|] == old(log)
      ensures newHeight >= old(lastHeight) ==>
                (Mine(newHeight) in log[|old(log)|..]
                 <==> probe.None? || probe.value.None? || probe.value.value < newHeight)
    {
      if newHeight < lastHeight {
        log := log + [Delete(Add(newHeight, 1), lastHeight)];
        lastHeight := newHeight;
        return true;
      }

      if newHeight > Add(lastHeight, 1) {
        var h: uint64 := Add(lastHeight, 1);
        while h < newHeight
          invariant Add(lastHeight, 1) <= h <= newHeight && lastHeight == old(lastHeight)
          invariant log == old(log) + Fill(lastHeight, newHeight)[..h - Add(lastHeight, 1)]
        {
          log := log + [Mine(h)];
          h := Add(h, 1);
        }
      }

      if probe.Some? && probe.value.Some? && probe.value.value >= newHeight {
        NotInFill(lastHeight, newHeight);
        awake := SleepStream(newHeight, polls);
        assert log[|old(log)|..] == Fill(old(lastHeight), newHeight);
      } else {
        log := log + [Mine(newHeight)];
        lastHeight := newHeight;
        awake := true;
        assert log[|old(log)|..] == Fill(old(lastHeight), newHeight) + [Mine(newHeight)];
      }
    }
  }

  // ---------------------------------------------------------------- coverage

  // What SyncBlock does with block n when it does not sleep; the new lastHeight is n.
  function Reaction(last: uint64, n: uint64): seq<Action> {
    if n < last then [Delete(n + 1, last)] else Fill(last, n) + [Mine(n)]
  }

  // A block above lastHeight sends each height from there up to itself once, in ascending
  // order; the same block again, itself; a lower one sends nothing and deletes what is above.
  lemma ReactionIs(last: uint64, n: uint64)
    ensures n > last ==>
              && |Reaction(last, n)| == n - last
              && forall i | 0 <= i < n - last :: Reaction(last, n)[i] == Mine(last + 1 + i)
    ensures n == last < MAX ==> Reaction(last, n) == [Mine(n)]
    ensures n < last ==> Reaction(last, n) == [Delete(n + 1, last)]
  {
  }

  function Reactions(last: uint64, blocks: seq<uint64>): seq<Action>
    decreases |blocks|
  {
    if blocks == [] then [] else Reaction(last, blocks[0]) + Reactions(blocks[0], blocks[1..])
  }

  function FinalHeight(last: uint64, blocks: seq<uint64>): uint64 {
    if blocks == [] then last else blocks[|blocks| - 1]
  }

  function Outside(live: set<uint64>, from: uint64, to: uint64): (r: set<uint64>)
    ensures forall h: uint64 :: h in r <==> h in live && !(from <= h <= to)
  {
    set h | h in live && (h < from || to < h)
  }

  // The heights sent to the miner and not deleted since, starting from live.
  function Live(live: set<uint64>, log: seq<Action>): set<uint64>
    decreases |log|
  {
    if log == [] then live
    else match log[0]
         case Mine(h) => Live(live + {h}, log[1..])
         case Delete(from, to) => Live(Outside(live, from, to), log[1..])
  }

  function Min(a: uint64, b: uint64): uint64 {
    if a < b then a else b
  }

  // The least of the initial lastHeight and all rewind targets: a block that is no
  // rewind is not below the one before it.
  function Floor(last: uint64, blocks: seq<uint64>): uint64
    decreases |blocks|
  {
    if blocks == [] then last else Min(last, Floor(blocks[0], blocks[1..]))
  }

  lemma {:induction false} LiveAppend(live: set<uint64>, a: seq<Action>, b: seq<Action>)
    ensures Live(live, a + b) == Live(Live(live, a), b)
    decreases |a|
  {
    if a == [] {
      assert [] + b == b;
    } else {
      assert (a + b)[1..] == a[1..] + b;
      match a[0]
      case Mine(h) => LiveAppend(live + {h}, a[1..], b);
      case Delete(from, to) => LiveAppend(Outside(live, from, to), a[1..], b);
    }
  }

  lemma {:induction false} LiveMined(live: set<uint64>, from: uint64, mined: seq<Action>)
    requires from + |mined| <= TWO64 && forall i | 0 <= i < |mined| :: mined[i] == Mine(from + i)
    ensures forall h :: h in Live(live, mined) <==> h in live || from <= h < from + |mined|
    decreases |mined|
  {
    if |mined| == 1 {
      assert mined[1..] == [] && Live(live, mined) == live + {from};
    } else if mined != [] {
      LiveMined(live + {from}, from + 1, mined[1..]);
    }
  }

  // live holds everything in (base, last] and nothing above last.
  ghost predicate Covered(live: set<uint64>, base: uint64, last: uint64) {
    && base <= last
    && (forall h | h in live :: h <= last)
    && (forall h: uint64 | base < h <= last :: h in live)
  }

  // What a block that is no rewind sends: everything above last up to the block. At the
  // top of uint64, last + 1 wraps and a repeated block sends everything from 0 on.
  function FillStart(last: uint64, n: uint64): uint64 {
    if n > Add(last, 1) then Add(last, 1) else n
  }

  lemma FillSends(live: set<uint64>, last: uint64, n: uint64)
    requires n >= last
    ensures forall h :: h in Live(live, Reaction(last, n)) <==> h in live || FillStart(last, n) <= h <= n
  {
    LiveMined(live, FillStart(last, n), Reaction(last, n));
  }

  lemma RewindKeeps(live: set<uint64>, last: uint64, n: uint64)
    requires n < last
    ensures Live(live, Reaction(last, n)) == Outside(live, n + 1, last)
  {
    assert Reaction(last, n)[1..] == [];
  }

  lemma ReactionCovered(live: set<uint64>, base: uint64, last: uint64, n: uint64)
    requires Covered(live, base, last)
    ensures Covered(Live(live, Reaction(last, n)), Min(base, n), n)
  {
    if n < last {
      RewindKeeps(live, last, n);
    } else {
      FillSends(live, last, n);
    }
  }

  lemma {:induction false} ReactionsCovered(live: set<uint64>, base: uint64, last: uint64, blocks: seq<uint64>)
    requires Covered(live, base, last)
    ensures Covered(Live(live, Reactions(last, blocks)), Min(base, Floor(last, blocks)), FinalHeight(last, blocks))
    decreases |blocks|
  {
    if blocks != [] {
      var n := blocks[0];
      ReactionCovered(live, base, last, n);
      ReactionsCovered(Live(live, Reaction(last, n)), Min(base, n), n, blocks[1..]);
      LiveAppend(live, Reaction(last, n), Reactions(n, blocks[1..]));
    }
  }

  // Sync coverage across rewinds: over any run that never sleeps, with b the least of
  // the initial lastHeight and the rewind targets, every height in (b, lastHeight] has
  // been dispatched and not deleted since, and nothing above lastHeight has.
  lemma SyncCoverage(last: uint64, blocks: seq<uint64>)
    ensures Covered(Live({}, Reactions(last, blocks)), Floor(last, blocks), FinalHeight(last, blocks))
  {
    ReactionsCovered({}, last, last, blocks);
    FloorAtMost(last, blocks);
  }

  lemma {:induction false} ReactionsAbove(live: set<uint64>, base: uint64, last: uint64, blocks: seq<uint64>)
    requires last < MAX && (forall i | 0 <= i < |blocks| :: blocks[i] < MAX)
    requires base <= last && forall h | h in live :: h >= base
    ensures forall h | h in Live(live, Reactions(last, blocks)) :: h >= Min(base, Floor(last, blocks))
    decreases |blocks|
  {
    if blocks != [] {
      var n := blocks[0];
      if n < last { RewindKeeps(live, last, n); } else { FillSends(live, last, n); }
      ReactionsAbove(Live(live, Reaction(last, n)), Min(base, n), n, blocks[1..]);
      LiveAppend(live, Reaction(last, n), Reactions(n, blocks[1..]));
    }
  }

  // Below the top of uint64 nothing under b is dispatched either.
  lemma NothingBelowFloor(last: uint64, blocks: seq<uint64>)
    requires last < MAX && forall i | 0 <= i < |blocks| :: blocks[i] < MAX
    ensures forall h | h in Live({}, Reactions(last, blocks)) :: h >= Floor(last, blocks)
  {
    ReactionsAbove({}, last, last, blocks);
    FloorAtMost(last, blocks);
  }

  lemma FloorAtMost(last: uint64, blocks: seq<uint64>)
    ensures Floor(last, blocks) <= last
  {
  }

  // A run of SyncBlock calls whose probes all say to go on reacts as Reactions says.
  method FollowStream(ns: Indexer, blocks: seq<uint64>, probes: seq<Option<Best>>)
    requires |probes| == |blocks|
    requires forall i | 0 <= i < |blocks| ::
               probes[i].None? || probes[i].value.None? || probes[i].value.value < blocks[i]
    modifies ns
    ensures ns.log == old(ns.log) + Reactions(old(ns.lastHeight), blocks)
    ensures ns.lastHeight == FinalHeight(old(ns.lastHeight), blocks)
  {
    ghost var all := ns.log + Reactions(ns.lastHeight, blocks);
    assert blocks[0..] == blocks;
    var i := 0;
    while i < |blocks|
      invariant 0 <= i <= |blocks|
      invariant all == ns.log + Reactions(ns.lastHeight, blocks[i..])
      invariant ns.lastHeight == if i == 0 then old(ns.lastHeight) else blocks[i - 1]
    {
      ghost var log, last := ns.log, ns.lastHeight;
      assert blocks[i..][1..] == blocks[i + 1..];
      var _ := ns.SyncBlock(blocks[i], probes[i], []);
      assert ns.log == log + Reaction(last, blocks[i]) by {
        Associative(log, Fill(last, blocks[i]), [Mine(blocks[i])]);
      }
      Associative(log, Reaction(last, blocks[i]), Reactions(blocks[i], blocks[i + 1..]));
      i := i + 1;
    }
  }

  // ---------------------------------------------------------------- sleeping

  // While a sleep lasts, the remembered height only rises, and every answer is above
  // what was remembered; so the poll that ends it is where the database stopped rising.
  lemma {:induction false} SleepRises(start: uint64, polls: seq<Best>, i: nat, j: nat)
    requires i <= j <= |polls|
    ensures start <= Highest(start, polls[..i]) <= Highest(start, polls[..j])
    decreases j
  {
    if j > 0 {
      assert polls[..j][..j - 1] == polls[..j - 1];
      if i < j {
        SleepRises(start, polls, i, j - 1);
      } else {
        SleepRises(start, polls, i - 1, i - 1);
        assert polls[..i][..i - 1] == polls[..i - 1];
      }
    }
  }

  // Waking is where an answer does not rise above the greatest height seen, for the first
  // time.
  lemma {:induction false} HighestOf(start: uint64, polls: seq<Best>)
    ensures start <= Highest(start, polls)
    ensures Highest(start, polls) == start || Some(Highest(start, polls)) in polls
    ensures forall j | 0 <= j < |polls| && polls[j].Some? :: polls[j].value <= Highest(start, polls)
    decreases |polls|
  {
    if polls != [] {
      var before := polls[..|polls| - 1];
      HighestOf(start, before);
      assert polls == before + [polls[|polls| - 1]];
    }
  }

  lemma WakesAtIff(start: uint64, polls: seq<Best>, k: nat)
    requires k < |polls|
    ensures WakesAt(start, polls, k)
            <==> && polls[k].Some? && polls[k].value <= Highest(start, polls[..k])
                 && forall j | 0 <= j < k && polls[j].Some? :: polls[j].value > Highest(start, polls[..j])
  {
    HighestOf(start, polls[..k]);
    forall j | 0 <= j < k
      ensures && start <= Highest(start, polls[..j])
              && (Highest(start, polls[..j]) == start || Some(Highest(start, polls[..j])) in polls[..j])
              && forall i | 0 <= i < j && polls[i].Some? :: polls[i].value <= Highest(start, polls[..j])
    {
      HighestOf(start, polls[..j]);
      assert forall i | 0 <= i < j :: polls[..j][i] == polls[i];
    }
    assert forall i | 0 <= i < k :: polls[..k][i] == polls[i];
  }

  lemma FillMines(wake: uint64, m: uint64, h: uint64)
    requires wake < h < m
    ensures Mine(h) in Fill(wake, m)
  {
    assert Fill(wake, m)[h - (wake + 1)] == Mine(wake + 1 + (h - (wake + 1)));
  }

  // Sleep loses no height: whatever the drained stream delivered meanwhile, the next
  // block above the wake-up height sends every height between the two, and itself unless
  // the database already has one as high.
  method SleepThenSync(ns: Indexer, n: uint64, probe: Option<Best>, polls: seq<Best>,
                       m: uint64, probe': Option<Best>, polls': seq<Best>)
      returns (awake: bool, ghost wake: uint64)
    requires ns.lastHeight <= n && probe.Some? && probe.value.Some? && probe.value.value >= n
    modifies ns
    ensures awake ==> exists k: nat :: k < |polls| && WakesAt(n, polls, k) && polls[k] == Some(wake)
    ensures awake && wake < m ==>
              var from := |old(ns.log)| + |Fill(old(ns.lastHeight), n)|;
              && |ns.log| >= from
              && (forall h | wake < h < m :: Mine(h) in ns.log[from..])
              && (probe'.None? || probe'.value.None? || probe'.value.value < m ==> Mine(m) in ns.log[from..])
  {
    wake := 0;
    awake := ns.SyncBlock(n, probe, polls);
    if awake {
      wake := ns.lastHeight;
      ghost var log := ns.log;
      var _ := ns.SyncBlock(m, probe', polls');
      if wake < m {
        forall h | wake < h < m
          ensures Mine(h) in Fill(wake, m)
        {
          FillMines(wake, m, h);
        }
        ghost var sleeps := probe'.Some? && probe'.value.Some? && probe'.value.value >= m;
        ghost var sent := Fill(wake, m) + if sleeps then [] else [Mine(m)];
        Associative(log, Fill(wake, m), [Mine(m)]);
        assert ns.log == log + sent;
        assert ns.log[|log|..] == sent;
      }
    }
  }
}
