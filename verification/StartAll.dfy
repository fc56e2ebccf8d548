// Mode "all" of indexer/indexer.go: the stream starts at the node's best block, then the
// check runs up to the block below the node's best at that time.

module StartAll {
  import opened UInt64
  import opened CheckIndex
  import opened OnSync

  // Start: lastHeight is one below the node's best block.
  function FirstHeight(best: uint64): uint64 {
    Sub(best, 1)
  }

  // Check: an upper end of 0 stands for one below the node's best block.
  function CheckEnd(stopAt: uint64, best: uint64): uint64 {
    if stopAt == 0 then Sub(best, 1) else stopAt
  }

  // h lies in the gap directly above an indexed startFrom.
  ghost predicate InFirstGap(nos: seq<uint64>, startFrom: uint64, h: uint64) {
    startFrom in nos && startFrom < h && forall m | m in nos :: !(startFrom < m < h)
  }

  // h is indexed, dispatched by the check, dispatched by the stream, or in that gap.
  ghost predicate Reached(nos: seq<uint64>, startFrom: uint64, stopAt: uint64, best: uint64, laterBest: uint64,
                          blocks: seq<uint64>, h: uint64)
  {
    || h in nos
    || ToDispatch(nos, startFrom, CheckEnd(stopAt, laterBest), h)
    || h in Live({}, Reactions(FirstHeight(best), blocks))
    || InFirstGap(nos, startFrom, h)
  }

  // The stream delivers these blocks without rewinding below where it started.
  ghost predicate Onwards(best: uint64, blocks: seq<uint64>) {
    Floor(FirstHeight(best), blocks) == FirstHeight(best)
  }

  // Whatever is indexed and whatever the stream delivers, nothing is left to nobody.
  ghost predicate NoHole(startFrom: uint64, stopAt: uint64, best: uint64, laterBest: uint64) {
    forall nos, blocks, h | Onwards(best, blocks) && startFrom <= h <= FinalHeight(FirstHeight(best), blocks) ::
      Reached(nos, startFrom, stopAt, best, laterBest, blocks, h)
  }

  // The check is asked for everything below the stream, or for nothing that is.
  predicate Joined(startFrom: uint64, stopAt: uint64, best: uint64) {
    stopAt == 0 || best - 1 <= stopAt < MAX || startFrom >= best
  }

  lemma JoinedReaches(nos: seq<uint64>, startFrom: uint64, stopAt: uint64, best: uint64, laterBest: uint64,
                      blocks: seq<uint64>, h: uint64)
    requires 1 <= best <= laterBest && Joined(startFrom, stopAt, best)
    requires Onwards(best, blocks) && startFrom <= h <= FinalHeight(FirstHeight(best), blocks)
    ensures Reached(nos, startFrom, stopAt, best, laterBest, blocks, h)
  {
    SyncCoverage(FirstHeight(best), blocks);
  }

  // On an empty index and before the first block of the stream, the lowest height that
  // the check leaves out below the stream is left to nobody.
  lemma HoleBelowStream(startFrom: uint64, stopAt: uint64, best: uint64, laterBest: uint64) returns (h: uint64)
    requires 1 <= best <= laterBest && !Joined(startFrom, stopAt, best)
    ensures startFrom <= h <= FinalHeight(FirstHeight(best), [])
    ensures Onwards(best, []) && !Reached([], startFrom, stopAt, best, laterBest, [], h)
  {
    h := if startFrom <= stopAt < MAX then stopAt + 1 else startFrom;
  }

  // No hole between check and stream: with node heights of at least 1 that do not shrink
  // between the two queries, no sleep and no rewind below the start, every height from
  // startFrom to the current lastHeight is reached, always, if and only if the check has
  // no upper end, or one from the stream's first height on and below the top of uint64,
  // or starts above it.
  lemma NoHoleIff(startFrom: uint64, stopAt: uint64, best: uint64, laterBest: uint64)
    requires 1 <= best <= laterBest
    ensures NoHole(startFrom, stopAt, best, laterBest) <==> Joined(startFrom, stopAt, best)
  {
    if Joined(startFrom, stopAt, best) {
      forall nos, blocks, h | Onwards(best, blocks) && startFrom <= h <= FinalHeight(FirstHeight(best), blocks)
        ensures Reached(nos, startFrom, stopAt, best, laterBest, blocks, h)
      {
        JoinedReaches(nos, startFrom, stopAt, best, laterBest, blocks, h);
      }
    } else {
      var h := HoleBelowStream(startFrom, stopAt, best, laterBest);
    }
  }

  // ---------------------------------------------------------------- with fix

  // What fixIndex sends: of an empty range startFrom alone.
  predicate FixSends(startFrom: uint64, to: uint64, h: uint64) {
    if startFrom <= to then startFrom <= h <= to else h == startFrom
  }

  ghost predicate ReachedWithFix(startFrom: uint64, stopAt: uint64, best: uint64, laterBest: uint64,
                                 blocks: seq<uint64>, h: uint64)
  {
    FixSends(startFrom, CheckEnd(stopAt, laterBest), h) || h in Live({}, Reactions(FirstHeight(best), blocks))
  }

  ghost predicate NoHoleWithFix(startFrom: uint64, stopAt: uint64, best: uint64, laterBest: uint64) {
    forall blocks, h | Onwards(best, blocks) && startFrom <= h <= FinalHeight(FirstHeight(best), blocks) ::
      ReachedWithFix(startFrom, stopAt, best, laterBest, blocks, h)
  }

  predicate JoinedWithFix(startFrom: uint64, stopAt: uint64, best: uint64) {
    stopAt == 0 || best - 1 <= stopAt || startFrom >= best - 1
  }

  // The same for a check with fix, which sends indexed heights too: nothing is excepted,
  // and an upper end at the top of uint64 does no harm.
  lemma NoHoleWithFixIff(startFrom: uint64, stopAt: uint64, best: uint64, laterBest: uint64)
    requires 1 <= best <= laterBest
    ensures NoHoleWithFix(startFrom, stopAt, best, laterBest) <==> JoinedWithFix(startFrom, stopAt, best)
  {
    if JoinedWithFix(startFrom, stopAt, best) {
      forall blocks, h | Onwards(best, blocks) && startFrom <= h <= FinalHeight(FirstHeight(best), blocks)
        ensures ReachedWithFix(startFrom, stopAt, best, laterBest, blocks, h)
      {
        SyncCoverage(FirstHeight(best), blocks);
      }
    } else {
      var h := if startFrom <= stopAt then stopAt + 1 else startFrom + 1;
      assert Onwards(best, []) && !ReachedWithFix(startFrom, stopAt, best, laterBest, [], h);
    }
  }
}
