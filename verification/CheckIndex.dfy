// Finding the heights that are not indexed and dispatching them: indexer/run_check.go,
// and InsertBlocksInRange of indexer/bulk.go.

module CheckIndex {
  import opened Chain
  import opened Sequences
  import opened Wrappers
  import opened UInt64
  import opened Scroll
  import opened Pipeline

  predicate Decreasing(jobs: seq<Job>) {
    forall a, b | 0 <= a < b < |jobs| :: jobs[a].height > jobs[b].height
  }

  predicate Sends(jobs: seq<Job>, h: Height) {
    exists k :: 0 <= k < |jobs| && jobs[k].height == h
  }

  // ---------------------------------------------------------------- ranges

  // What one range sends: `to` downwards to `from`, each height above `from` on the
  // channel it selects, and `from` on channel 0. (With from > to only `from` is sent.)
  function RangeJobs(from: uint64, to: uint64, minerNum: nat): (jobs: seq<Job>)
    requires minerNum > 0
    ensures |jobs| == if from <= to then to - from + 1 else 1
  {
    var n: nat := if from <= to then to - from else 0;
    seq(n, i requires 0 <= i < n => Job((to - i) % minerNum, to - i)) + [Job(0, from)]
  }

  class Bulk {
    const minerNum: nat
    var sent: seq<Job>                     // what went to the miner channels
    ghost var forward: bool                // every call of InsertBlocksInRange had from <= to

    ghost predicate Valid()
    {
      minerNum > 0
    }

    constructor (minerNum: nat)
      requires minerNum > 0
      ensures Valid() && this.minerNum == minerNum && sent == [] && forward
    {
      this.minerNum := minerNum;
      sent, forward := [], true;
    }

    method InsertBlocksInRange(from: uint64, to: uint64)
      requires Valid()
      modifies this
      ensures sent == old(sent) + RangeJobs(from, to, minerNum)
      ensures forward == (old(forward) && from <= to)
    {
      var blockHeight := to;
      while blockHeight > from
        invariant if from <= to then from <= blockHeight <= to else blockHeight == to
        invariant sent == old(sent) + RangeJobs(from, to, minerNum)[..to - blockHeight]
        invariant forward == old(forward)
        decreases blockHeight
      {
        sent := sent + [Job(blockHeight % minerNum, blockHeight)];
        blockHeight := Sub(blockHeight, 1);
      }
      sent := sent + [Job(0, from)];
      forward := forward && from <= to;
    }
  }

  lemma RangeSends(from: uint64, to: uint64, minerNum: nat)
    requires minerNum > 0 && from <= to
    ensures var jobs := RangeJobs(from, to, minerNum);
            && Decreasing(jobs)
            && |jobs| == to - from + 1
            && (forall h: Height :: Sends(jobs, h) <==> from <= h <= to)
            && (forall k | 0 <= k < |jobs| ::
                  jobs[k].channel == if jobs[k].height == from then 0 else jobs[k].height % minerNum)
  {
    var jobs := RangeJobs(from, to, minerNum);
    forall h: nat | from <= h <= to
      ensures Sends(jobs, h)
    {
      assert jobs[to - h].height == h;
    }
  }

  // ---------------------------------------------------------------- the spread over channels

  function OnChannel(jobs: seq<Job>, c: nat): nat {
    if jobs == [] then 0 else (if jobs[0].channel == c then 1 else 0) + OnChannel(jobs[1..], c)
  }

  // How many of the n heights top, top - 1, ... select channel c.
  function Selecting(top: int, n: nat, minerNum: nat, c: nat): nat
    requires minerNum > 0
    decreases n
  {
    if n == 0 then 0 else (if top % minerNum == c then 1 else 0) + Selecting(top - 1, n - 1, minerNum, c)
  }

  lemma {:induction false} SelectingAppend(top: int, a: nat, b: nat, minerNum: nat, c: nat)
    requires minerNum > 0
    ensures Selecting(top, a + b, minerNum, c) == Selecting(top, a, minerNum, c) + Selecting(top - a, b, minerNum, c)
    decreases a
  {
    if a > 0 { SelectingAppend(top - 1, a - 1, b, minerNum, c); }
  }

  lemma ModDown(x: int, n: nat)
    requires n > 0
    ensures (x - 1) % n == if x % n == 0 then n - 1 else x % n - 1
  {
    var q, r := x / n, x % n;
    if r == 0 {
      assert x - 1 == (q - 1) * n + (n - 1);
      ModUnique(x - 1, q - 1, n - 1, n);
    } else {
      ModUnique(x - 1, q, r - 1, n);
    }
  }

  lemma ModUnique(x: int, q: int, r: int, n: nat)
    requires n > 0 && 0 <= r < n && x == q * n + r
    ensures x % n == r
  {
    var q', r' := x / n, x % n;
    assert (q - q') * n == r' - r && (q' - q) * n == r - r';
    if q > q' {
      AtLeastOnce(q - q', n);
    } else if q < q' {
      AtLeastOnce(q' - q, n);
    }
  }

  lemma {:induction false} AtLeastOnce(k: int, n: nat)
    requires k >= 1
    ensures k * n >= n
  {
    if k > 1 {
      AtLeastOnce(k - 1, n);
      assert k * n == (k - 1) * n + n;
    }
  }

  // Fewer heights than channels: a channel is selected by at most one of them, the one
  // its distance from the top's channel points at.
  lemma {:induction false} SelectingFew(top: int, n: nat, minerNum: nat, c: nat)
    requires minerNum > 0 && n <= minerNum && c < minerNum
    ensures var r := top % minerNum;
            var distance := if c <= r then r - c else r - c + minerNum;
            Selecting(top, n, minerNum, c) == if distance < n then 1 else 0
    decreases n
  {
    if n > 0 {
      ModDown(top, minerNum);
      SelectingFew(top - 1, n - 1, minerNum, c);
    }
  }

  lemma {:induction false} SelectingEven(top: int, n: nat, minerNum: nat, c: nat, d: nat)
    requires minerNum > 0 && c < minerNum && d < minerNum
    ensures Selecting(top, n, minerNum, c) <= Selecting(top, n, minerNum, d) + 1
    decreases n
  {
    if n <= minerNum {
      SelectingFew(top, n, minerNum, c);
      SelectingFew(top, n, minerNum, d);
    } else {
      SelectingAppend(top, minerNum, n - minerNum, minerNum, c);
      SelectingAppend(top, minerNum, n - minerNum, minerNum, d);
      SelectingFew(top, minerNum, minerNum, c);
      SelectingFew(top, minerNum, minerNum, d);
      SelectingEven(top - minerNum, n - minerNum, minerNum, c, d);
    }
  }

  lemma {:induction false} RangeOnChannel(from: uint64, to: uint64, minerNum: nat, c: nat)
    requires minerNum > 0 && from <= to
    ensures OnChannel(RangeJobs(from, to, minerNum), c)
            == Selecting(to, to - from, minerNum, c) + (if c == 0 then 1 else 0)
  {
    var jobs := RangeJobs(from, to, minerNum);
    if from == to {
      assert jobs == [Job(0, from)];
      assert OnChannel(jobs, c) == if c == 0 then 1 else 0;
    } else {
      assert jobs[1..] == RangeJobs(from, to - 1, minerNum);
      RangeOnChannel(from, to - 1, minerNum, c);
    }
  }

  // The range split: the loads of any two channels differ by at most two.
  lemma RangeSpread(from: uint64, to: uint64, minerNum: nat, c: nat, d: nat)
    requires from <= to && c < minerNum && d < minerNum
    ensures OnChannel(RangeJobs(from, to, minerNum), c) <= OnChannel(RangeJobs(from, to, minerNum), d) + 2
  {
    RangeOnChannel(from, to, minerNum, c);
    RangeOnChannel(from, to, minerNum, d);
    SelectingEven(to, to - from, minerNum, c, d);
  }

  // ---------------------------------------------------------------- the gap finder

  ghost predicate NonIncreasing(nos: seq<uint64>) {
    forall a, b | 0 <= a < b < |nos| :: nos[a] >= nos[b]
  }

  // The heights checkIndex dispatches when the scroll delivers nos. An indexed startFrom
  // costs the gap directly above it: then only what lies above some indexed height
  // greater than startFrom is dispatched. With stopAt at the top of uint64, stopAt + 1
  // wraps to 0 and nothing is dispatched at all.
  ghost predicate ToDispatch(nos: seq<uint64>, startFrom: uint64, stopAt: uint64, h: Height) {
    && startFrom <= h <= stopAt < MAX
    && h !in nos
    && (startFrom in nos ==> exists m :: m in nos && startFrom < m < h)
  }

  // Where a height goes: the lowest height of each gap to channel 0.
  ghost function ChannelOf(nos: seq<uint64>, startFrom: uint64, minerNum: nat, h: Height): nat
    requires minerNum > 0
  {
    if h == startFrom || h - 1 in nos then 0 else h % minerNum
  }

  ghost predicate Placed(jobs: seq<Job>, nos: seq<uint64>, startFrom: uint64, minerNum: nat)
    requires minerNum > 0
  {
    forall k | 0 <= k < |jobs| :: jobs[k].channel == ChannelOf(nos, startFrom, minerNum, jobs[k].height)
  }

  lemma Extend(a: seq<Job>, b: seq<Job>)
    requires Decreasing(a) && Decreasing(b)
    requires forall g, h | Sends(a, g) && Sends(b, h) :: g > h
    ensures Decreasing(a + b)
    ensures forall h :: Sends(a + b, h) <==> Sends(a, h) || Sends(b, h)
  {
    assert forall k | 0 <= k < |a| :: Sends(a, a[k].height);
    assert forall k | 0 <= k < |b| :: Sends(b, b[k].height);
    forall h | Sends(a, h) || Sends(b, h)
      ensures Sends(a + b, h)
    {
      if k :| 0 <= k < |a| && a[k].height == h {
        assert (a + b)[k].height == h;
      } else {
        var k :| 0 <= k < |b| && b[k].height == h;
        assert (a + b)[|a| + k].height == h;
      }
    }
  }

  // Placement is per job: it survives when the indexed heights just below the jobs stay
  // the same.
  lemma PlacedExtend(jobs: seq<Job>, more: seq<Job>, nos: seq<uint64>, nos': seq<uint64>, startFrom: uint64,
                     minerNum: nat)
    requires minerNum > 0 && Placed(jobs, nos, startFrom, minerNum) && Placed(more, nos', startFrom, minerNum)
    requires forall k | 0 <= k < |jobs| :: jobs[k].height - 1 in nos <==> jobs[k].height - 1 in nos'
    ensures Placed(jobs + more, nos', startFrom, minerNum)
  {
    forall k | 0 <= k < |jobs + more|
      ensures (jobs + more)[k].channel == ChannelOf(nos', startFrom, minerNum, (jobs + more)[k].height)
    {
      assert k < |jobs| ==> jobs[k].channel == ChannelOf(nos, startFrom, minerNum, jobs[k].height);
      assert k >= |jobs| ==> (jobs + more)[k] == more[k - |jobs|];
    }
  }

  // A range whose lower end is startFrom or lies just above an indexed height, and that
  // holds no other indexed height.
  lemma RangePlaced(from: uint64, to: uint64, nos: seq<uint64>, startFrom: uint64, minerNum: nat)
    requires minerNum > 0 && startFrom <= from <= to
    requires from == startFrom || from - 1 in nos
    requires forall h | h in nos :: !(from <= h < to)
    ensures Placed(RangeJobs(from, to, minerNum), nos, startFrom, minerNum)
  {
    RangeSends(from, to, minerNum);
    var jobs := RangeJobs(from, to, minerNum);
    assert forall k | 0 <= k < |jobs| :: Sends(jobs, jobs[k].height);
  }

  // The scan has taken in `done`, all of it at or above prev, and sent what is missing
  // above prev.
  ghost predicate Scanned(done: seq<uint64>, prev: uint64, startFrom: uint64, stopAt: uint64, jobs: seq<Job>,
                          minerNum: nat)
    requires minerNum > 0
  {
    if stopAt == MAX then prev == 0 && jobs == []
    else
      && prev <= stopAt + 1
      && (prev == stopAt + 1 || (prev > startFrom && prev in done))
      && (forall k | 0 <= k < |done| :: done[k] >= prev)
      && Decreasing(jobs)
      && (forall h: Height :: Sends(jobs, h) <==> prev < h <= stopAt && h !in done)
      && |jobs| <= stopAt + 1 - prev
      && Placed(jobs, done, startFrom, minerNum)
  }

  lemma DoneSplit(done: seq<uint64>, no: uint64, rest: seq<uint64>)
    requires NonIncreasing(done + [no] + rest)
    ensures forall k | 0 <= k < |done| :: done[k] >= no
    ensures forall k | 0 <= k < |rest| :: rest[k] <= no
  {
    var all := done + [no] + rest;
    assert forall k | 0 <= k < |done| :: all[k] == done[k];
    assert all[|done|] == no;
    assert forall k | 0 <= k < |rest| :: all[|done| + 1 + k] == rest[k];
  }

  lemma ScanSkip(done: seq<uint64>, no: uint64, prev: uint64, startFrom: uint64, stopAt: uint64, jobs: seq<Job>,
                 minerNum: nat)
    requires minerNum > 0 && Scanned(done, prev, startFrom, stopAt, jobs, minerNum) && no >= prev
    requires forall k | 0 <= k < |done| :: done[k] >= no
    ensures Scanned(done + [no], prev, startFrom, stopAt, jobs, minerNum)
  {
    if stopAt != MAX {
      assert prev == stopAt + 1 || no == prev;
      assert forall k | 0 <= k < |jobs| :: Sends(jobs, jobs[k].height);
      PlacedExtend(jobs, [], done, done + [no], startFrom, minerNum);
      assert jobs + [] == jobs;
    }
  }

  // The jobs for the heights strictly between an indexed height and the one above it.
  function GapJobs(no: uint64, prev: uint64, minerNum: nat): (jobs: seq<Job>)
    requires minerNum > 0 && no < prev
    ensures |jobs| == prev - no - 1
  {
    if no < prev - 1 then RangeJobs(no + 1, prev - 1, minerNum) else []
  }

  lemma GapFacts(no: uint64, prev: uint64, nos: seq<uint64>, startFrom: uint64, minerNum: nat)
    requires minerNum > 0 && startFrom < no < prev && no in nos && forall h | h in nos :: h <= no || h >= prev
    ensures var gap := GapJobs(no, prev, minerNum);
            && Decreasing(gap) && |gap| == prev - no - 1
            && (forall h: Height :: Sends(gap, h) <==> no < h < prev)
            && Placed(gap, nos, startFrom, minerNum)
  {
    if no == prev - 1 {
      assert GapJobs(no, prev, minerNum) == [];
    } else {
      assert GapJobs(no, prev, minerNum) == RangeJobs(no + 1, prev - 1, minerNum);
      RangeSends(no + 1, prev - 1, minerNum);
      RangePlaced(no + 1, prev - 1, nos, startFrom, minerNum);
    }
  }

  lemma TakeMembers(done: seq<uint64>, no: uint64, prev: uint64, stopAt: uint64, h: Height)
    requires no < prev <= stopAt + 1 && (prev == stopAt + 1 || prev in done)
    requires forall k | 0 <= k < |done| :: done[k] >= prev
    ensures no < h <= stopAt && h !in done + [no] <==> (prev < h <= stopAt && h !in done) || no < h < prev
  {
  }

  lemma ScanTake(done: seq<uint64>, no: uint64, prev: uint64, startFrom: uint64, stopAt: uint64, jobs: seq<Job>,
                 minerNum: nat,
                 gap: seq<Job>)
    requires minerNum > 0 && Scanned(done, prev, startFrom, stopAt, jobs, minerNum) && startFrom < no < prev
    requires Decreasing(gap) && |gap| == prev - no - 1 && Placed(gap, done + [no], startFrom, minerNum)
    requires forall h: Height :: Sends(gap, h) <==> no < h < prev
    ensures Scanned(done + [no], no, startFrom, stopAt, jobs + gap, minerNum)
  {
    Extend(jobs, gap);
    forall h: Height
      ensures Sends(jobs + gap, h) <==> no < h <= stopAt && h !in done + [no]
    {
      TakeMembers(done, no, prev, stopAt, h);
    }
    assert Placed(jobs + gap, done + [no], startFrom, minerNum) by {
      assert forall k | 0 <= k < |jobs| :: Sends(jobs, jobs[k].height);
      PlacedExtend(jobs, gap, done, done + [no], startFrom, minerNum);
    }
  }

  // What remains below the last height taken in, once the scan is over.
  function LastJobs(prev: uint64, blockNo: uint64, startFrom: uint64, minerNum: nat): seq<Job>
    requires minerNum > 0
  {
    if blockNo != startFrom && prev > startFrom then RangeJobs(startFrom, prev - 1, minerNum) else []
  }

  ghost predicate Exact(nos: seq<uint64>, startFrom: uint64, stopAt: uint64, jobs: seq<Job>, minerNum: nat)
    requires minerNum > 0
  {
    && Decreasing(jobs)
    && (forall h: Height :: Sends(jobs, h) <==> ToDispatch(nos, startFrom, stopAt, h))
    && Placed(jobs, nos, startFrom, minerNum)
  }

  // How the scan ends: at io.EOF, or at an indexed height not above startFrom.
  ghost predicate Ended(rest: seq<uint64>, prev: uint64, blockNo: uint64, startFrom: uint64, stopAt: uint64) {
    && (forall k | 0 <= k < |rest| :: rest[k] <= blockNo)
    && if rest == [] then blockNo == startFrom ==> startFrom > stopAt || stopAt == MAX
       else rest[0] == blockNo <= startFrom && blockNo < prev
  }

  // Below prev, only startFrom itself and what lies under it can still be indexed.
  lemma EndedMembers(done: seq<uint64>, rest: seq<uint64>, prev: uint64, blockNo: uint64, startFrom: uint64,
                     stopAt: uint64,
                     jobs: seq<Job>, minerNum: nat)
    requires minerNum > 0 && stopAt < MAX && startFrom <= stopAt
    requires Scanned(done, prev, startFrom, stopAt, jobs, minerNum) && Ended(rest, prev, blockNo, startFrom, stopAt)
    ensures prev > startFrom
    ensures startFrom in done + rest <==> blockNo == startFrom
    ensures forall h | h > startFrom :: h in done + rest <==> h in done
    ensures forall h | h in done :: h >= prev
    ensures prev == stopAt + 1 || prev in done
  {
  }

  lemma EndedSends(done: seq<uint64>, rest: seq<uint64>, prev: uint64, blockNo: uint64, startFrom: uint64,
                   stopAt: uint64,
                   jobs: seq<Job>, minerNum: nat, h: Height)
    requires minerNum > 0 && stopAt < MAX && startFrom <= stopAt
    requires Scanned(done, prev, startFrom, stopAt, jobs, minerNum) && Ended(rest, prev, blockNo, startFrom, stopAt)
    ensures ToDispatch(done + rest, startFrom, stopAt, h)
            <==> Sends(jobs, h) || (blockNo != startFrom && startFrom <= h < prev)
  {
    EndedMembers(done, rest, prev, blockNo, startFrom, stopAt, jobs, minerNum);
    if h > startFrom && prev <= stopAt {
      assert prev in done + rest;
    }
  }

  lemma NoJobs(jobs: seq<Job>)
    requires forall h: Height :: !Sends(jobs, h)
    ensures jobs == []
  {
    assert |jobs| > 0 ==> Sends(jobs, jobs[0].height);
  }

  lemma LastFacts(prev: uint64, blockNo: uint64, nos: seq<uint64>, startFrom: uint64, minerNum: nat)
    requires minerNum > 0 && startFrom < prev
    requires blockNo != startFrom ==> forall h | h in nos :: h < startFrom || h >= prev
    ensures var last := LastJobs(prev, blockNo, startFrom, minerNum);
            && Decreasing(last) && |last| <= prev - startFrom
            && (forall h: Height :: Sends(last, h) <==> blockNo != startFrom && startFrom <= h < prev)
            && Placed(last, nos, startFrom, minerNum)
  {
    if blockNo != startFrom {
      RangeSends(startFrom, prev - 1, minerNum);
      RangePlaced(startFrom, prev - 1, nos, startFrom, minerNum);
    }
  }

  lemma ScanEndWith(done: seq<uint64>, rest: seq<uint64>, prev: uint64, blockNo: uint64, startFrom: uint64,
                    stopAt: uint64,
                    jobs: seq<Job>, minerNum: nat, last: seq<Job>)
    requires minerNum > 0 && stopAt < MAX && startFrom <= stopAt
    requires Scanned(done, prev, startFrom, stopAt, jobs, minerNum) && Ended(rest, prev, blockNo, startFrom, stopAt)
    requires Decreasing(last) && |last| <= prev - startFrom && Placed(last, done + rest, startFrom, minerNum)
    requires forall h: Height :: Sends(last, h) <==> blockNo != startFrom && startFrom <= h < prev
    ensures Exact(done + rest, startFrom, stopAt, jobs + last, minerNum) && |jobs + last| <= MAX
  {
    EndedMembers(done, rest, prev, blockNo, startFrom, stopAt, jobs, minerNum);
    Extend(jobs, last);
    forall h: Height
      ensures Sends(jobs + last, h) <==> ToDispatch(done + rest, startFrom, stopAt, h)
    {
      EndedSends(done, rest, prev, blockNo, startFrom, stopAt, jobs, minerNum, h);
    }
    assert forall k | 0 <= k < |jobs| :: Sends(jobs, jobs[k].height);
    PlacedExtend(jobs, last, done, done + rest, startFrom, minerNum);
  }

  lemma ScanEnd(done: seq<uint64>, rest: seq<uint64>, prev: uint64, blockNo: uint64, startFrom: uint64, stopAt: uint64,
                jobs: seq<Job>, minerNum: nat)
    requires minerNum > 0 && Scanned(done, prev, startFrom, stopAt, jobs, minerNum)
             && Ended(rest, prev, blockNo, startFrom, stopAt)
    ensures var all := jobs + LastJobs(prev, blockNo, startFrom, minerNum);
            Exact(done + rest, startFrom, stopAt, all, minerNum) && |all| <= MAX
  {
    var last := LastJobs(prev, blockNo, startFrom, minerNum);
    if startFrom > stopAt || stopAt == MAX {
      NoJobs(jobs);
      assert last == [] && jobs + last == [];
    } else {
      EndedMembers(done, rest, prev, blockNo, startFrom, stopAt, jobs, minerNum);
      LastFacts(prev, blockNo, done + rest, startFrom, minerNum);
      ScanEndWith(done, rest, prev, blockNo, startFrom, stopAt, jobs, minerNum, last);
    }
  }

  // What the scan still sends when it stands at prev and blockNo and the scroll still
  // delivers nos.
  function ScanJobs(nos: seq<uint64>, prev: uint64, blockNo: uint64, startFrom: uint64, minerNum: nat): seq<Job>
    requires minerNum > 0
  {
    if nos == [] then LastJobs(prev, blockNo, startFrom, minerNum)
    else if nos[0] >= prev then ScanJobs(nos[1..], prev, nos[0], startFrom, minerNum)
    else if nos[0] <= startFrom then LastJobs(prev, nos[0], startFrom, minerNum)
    else GapJobs(nos[0], prev, minerNum) + ScanJobs(nos[1..], nos[0], nos[0], startFrom, minerNum)
  }

  function DispatchJobs(nos: seq<uint64>, startFrom: uint64, stopAt: uint64, minerNum: nat): seq<Job>
    requires minerNum > 0
  {
    ScanJobs(nos, Add(stopAt, 1), Add(startFrom, 1), startFrom, minerNum)
  }

  lemma {:induction false} ScanExact(done: seq<uint64>, rest: seq<uint64>, prev: uint64, blockNo: uint64,
                                     startFrom: uint64, stopAt: uint64, jobs: seq<Job>, minerNum: nat)
    requires minerNum > 0 && Scanned(done, prev, startFrom, stopAt, jobs, minerNum) && NonIncreasing(done + rest)
    requires blockNo == startFrom ==> startFrom > stopAt || stopAt == MAX
    ensures var all := jobs + ScanJobs(rest, prev, blockNo, startFrom, minerNum);
            Exact(done + rest, startFrom, stopAt, all, minerNum) && |all| <= MAX
    decreases |rest|
  {
    if rest == [] {
      ScanEnd(done, rest, prev, blockNo, startFrom, stopAt, jobs, minerNum);
    } else {
      var no := rest[0];
      assert done + rest == done + [no] + rest[1..];
      DoneSplit(done, no, rest[1..]);
      if no >= prev {
        ScanSkip(done, no, prev, startFrom, stopAt, jobs, minerNum);
        ScanExact(done + [no], rest[1..], prev, no, startFrom, stopAt, jobs, minerNum);
      } else if no <= startFrom {
        ScanEnd(done, rest, prev, no, startFrom, stopAt, jobs, minerNum);
      } else {
        var gap := GapJobs(no, prev, minerNum);
        GapFacts(no, prev, done + [no], startFrom, minerNum);
        ScanTake(done, no, prev, startFrom, stopAt, jobs, minerNum, gap);
        ScanExact(done + [no], rest[1..], no, no, startFrom, stopAt, jobs + gap, minerNum);
        Associative(jobs, gap, ScanJobs(rest[1..], no, no, startFrom, minerNum));
      }
    }
  }

  // The exact dispatch: for block numbers delivered in non-increasing order, duplicates
  // allowed, the jobs are strictly decreasing, their heights are exactly ToDispatch, and
  // each goes to the channel ChannelOf names.
  lemma DispatchExact(nos: seq<uint64>, startFrom: uint64, stopAt: uint64, minerNum: nat)
    requires minerNum > 0 && NonIncreasing(nos)
    ensures Exact(nos, startFrom, stopAt, DispatchJobs(nos, startFrom, stopAt, minerNum), minerNum)
    ensures |DispatchJobs(nos, startFrom, stopAt, minerNum)| <= MAX
  {
    ScanExact([], nos, Add(stopAt, 1), Add(startFrom, 1), startFrom, stopAt, [], minerNum);
    assert [] + nos == nos;
    Associative(DispatchJobs(nos, startFrom, stopAt, minerNum), [], []);
  }

  // Dispatches the gap between an indexed height and the one above it, and counts it.
  method DispatchGap(bulk: Bulk, no: uint64, prev: uint64, missing: uint64) returns (missingBlocks: uint64)
    requires bulk.Valid() && no < prev && missing + (prev - no - 1) <= MAX
    modifies bulk
    ensures bulk.sent == old(bulk.sent) + GapJobs(no, prev, bulk.minerNum) && bulk.forward == old(bulk.forward)
    ensures missingBlocks == missing + |GapJobs(no, prev, bulk.minerNum)|
  {
    missingBlocks := missing;
    if no < Sub(prev, 1) {
      missingBlocks := Add(missing, Sub(Sub(prev, no), 1));
      bulk.InsertBlocksInRange(Add(no, 1), Sub(prev, 1));
    }
  }

  // Dispatches what remains down to startFrom, unless startFrom was the last height seen.
  method DispatchLast(bulk: Bulk, prev: uint64, blockNo: uint64, startFrom: uint64, missing: uint64)
      returns (missingBlocks: uint64)
    requires bulk.Valid() && missing + |LastJobs(prev, blockNo, startFrom, bulk.minerNum)| <= MAX
    modifies bulk
    ensures bulk.sent == old(bulk.sent) + LastJobs(prev, blockNo, startFrom, bulk.minerNum)
            && bulk.forward == old(bulk.forward)
    ensures missingBlocks == missing + |LastJobs(prev, blockNo, startFrom, bulk.minerNum)|
  {
    missingBlocks := missing;
    if blockNo != startFrom && prev > startFrom {
      missingBlocks := Add(missing, Sub(prev, startFrom));
      bulk.InsertBlocksInRange(startFrom, Sub(prev, 1));
    }
  }

  // checkIndex, between StartBulkChannel and StopBulkChannel.
  method ScanIndex(scroll: EsScrollInstance, bulk: Bulk, startFrom: uint64, stopAt: uint64)
      returns (missingBlocks: uint64)
    requires scroll.Valid() && bulk.Valid() && bulk.sent == [] && bulk.forward
    requires NonIncreasing(Numbers(scroll.Remaining()))
    modifies scroll, bulk
    ensures bulk.sent == DispatchJobs(old(Numbers(scroll.Remaining())), startFrom, stopAt, bulk.minerNum)
    ensures missingBlocks == |bulk.sent| && bulk.forward
  {
    ghost var nos := Numbers(scroll.Remaining());
    ghost var all := DispatchJobs(nos, startFrom, stopAt, bulk.minerNum);
    assert |all| <= MAX by { DispatchExact(nos, startFrom, stopAt, bulk.minerNum); }
    var prevBlockNo: uint64 := Add(stopAt, 1);
    missingBlocks := 0;
    var blockNo: uint64 := Add(startFrom, 1);
    ghost var rest := nos;
    while true
      invariant scroll.Valid() && rest == Numbers(scroll.Remaining())
      invariant all == bulk.sent + ScanJobs(rest, prevBlockNo, blockNo, startFrom, bulk.minerNum)
      invariant missingBlocks == |bulk.sent| && bulk.forward
      decreases |scroll.Remaining()|
    {
      var next := scroll.Next();
      if next.Eof? {
        break;
      }
      if next.Error? {
        continue;
      }
      blockNo := next.no;
      rest := rest[1..];
      if blockNo >= prevBlockNo {
        continue;
      }
      if blockNo <= startFrom {
        rest := [];
        break;
      }
      Associative(bulk.sent, GapJobs(blockNo, prevBlockNo, bulk.minerNum),
                  ScanJobs(rest, blockNo, blockNo, startFrom, bulk.minerNum));
      missingBlocks := DispatchGap(bulk, blockNo, prevBlockNo, missingBlocks);
      prevBlockNo := blockNo;
    }
    missingBlocks := DispatchLast(bulk, prevBlockNo, blockNo, startFrom, missingBlocks);
  }

  // fixIndex, between StartBulkChannel and StopBulkChannel.
  method FixIndex(bulk: Bulk, startFrom: uint64, stopAt: uint64)
    requires bulk.Valid() && bulk.sent == []
    modifies bulk
    ensures startFrom <= stopAt ==>
              && Decreasing(bulk.sent)
              && forall h: Height :: Sends(bulk.sent, h) <==> startFrom <= h <= stopAt
    ensures startFrom > stopAt ==> bulk.sent == [Job(0, startFrom)]
  {
    bulk.InsertBlocksInRange(startFrom, stopAt);
    if startFrom <= stopAt { RangeSends(startFrom, stopAt, bulk.minerNum); }
    assert [] + RangeJobs(startFrom, stopAt, bulk.minerNum) == RangeJobs(startFrom, stopAt, bulk.minerNum);
  }

  // Check: without an upper end given, up to the block below the node's best.
  method Check(scroll: EsScrollInstance, bulk: Bulk, startFrom: uint64, stopAt: uint64, best: uint64, fix: bool)
    requires scroll.Valid() && bulk.Valid() && bulk.sent == [] && bulk.forward
    requires NonIncreasing(Numbers(scroll.Remaining()))
    modifies scroll, bulk
    ensures !fix ==> Exact(old(Numbers(scroll.Remaining())), startFrom,
                           if stopAt == 0 then Sub(best, 1) else stopAt, bulk.sent, bulk.minerNum)
    ensures fix ==>
              var to := if stopAt == 0 then Sub(best, 1) else stopAt;
              if startFrom <= to
              then Decreasing(bulk.sent) && forall h: Height :: Sends(bulk.sent, h) <==> startFrom <= h <= to
              else bulk.sent == [Job(0, startFrom)]
  {
    var to: uint64 := if stopAt == 0 then Sub(best, 1) else stopAt;
    if fix {
      FixIndex(bulk, startFrom, to);
    } else {
      DispatchExact(Numbers(scroll.Remaining()), startFrom, to, bulk.minerNum);
      var _ := ScanIndex(scroll, bulk, startFrom, to);
    }
  }

  // ---------------------------------------------------------------- what the scan misses

  ghost predicate DispatchesAllMissing(nos: seq<uint64>, startFrom: uint64, stopAt: uint64) {
    forall h: Height | startFrom <= h <= stopAt && h !in nos :: ToDispatch(nos, startFrom, stopAt, h)
  }

  // An indexed startFrom is harmless only when nothing is missing right above it.
  ghost predicate Covers(nos: seq<uint64>, startFrom: uint64, stopAt: uint64) {
    startFrom !in nos || startFrom >= stopAt || startFrom + 1 in nos
  }

  // checkIndex dispatches every missing height of the range exactly under that condition;
  // with stopAt at the top of uint64, where it dispatches nothing, exactly when there is none.
  lemma DispatchCompleteIff(nos: seq<uint64>, startFrom: uint64, stopAt: uint64)
    ensures DispatchesAllMissing(nos, startFrom, stopAt)
            <==> if stopAt < MAX then Covers(nos, startFrom, stopAt) else forall h: uint64 | startFrom <= h :: h in nos
  {
    if stopAt < MAX && !Covers(nos, startFrom, stopAt) {
      assert !ToDispatch(nos, startFrom, stopAt, startFrom + 1);
    } else if stopAt == MAX {
      assert forall h: Height :: !ToDispatch(nos, startFrom, stopAt, h);
    }
  }

  // The dispatch depends on the stored documents alone, not on how the scroll pages them.
  lemma PagesDoNotMatter(pages: seq<seq<Hit>>, pages': seq<seq<Hit>>, startFrom: uint64, stopAt: uint64, minerNum: nat)
    requires forall i | 0 <= i < |pages| :: pages[i] != []
    requires forall i | 0 <= i < |pages'| :: pages'[i] != []
    requires minerNum > 0 && Concat(pages) == Concat(pages')
    ensures DispatchJobs(Numbers(OfResponses(Pages(pages))), startFrom, stopAt, minerNum)
            == DispatchJobs(Numbers(OfResponses(Pages(pages'))), startFrom, stopAt, minerNum)
  {
    PagingIsInvisible(pages);
    PagingIsInvisible(pages');
  }

  // A document that does not decode counts as missing, startFrom's own included.
  lemma UndecodableIsMissing(pages: seq<seq<Hit>>, startFrom: uint64, stopAt: uint64, h: Height)
    requires forall i | 0 <= i < |pages| :: pages[i] != []
    ensures ToDispatch(Numbers(OfResponses(Pages(pages))), startFrom, stopAt, h)
            <==> && startFrom <= h <= stopAt < MAX
                 && Hit(Some(h)) !in Concat(pages)
                 && (Hit(Some(startFrom)) in Concat(pages) ==>
                       exists m: uint64 :: Hit(Some(m)) in Concat(pages) && startFrom < m < h)
  {
    PagingIsInvisible(pages);
    NumbersOfHits(Concat(pages));
  }

  // Blocks 5 and 9 are indexed: checking [5, 10] dispatches 10 but neither 6, 7 nor 8.
  lemma GapAboveStartSkipped()
    ensures DispatchJobs([9, 5], 5, 10, 1) == [Job(0, 10)]
    ensures !DispatchesAllMissing([9, 5], 5, 10)
  {
    var nos: seq<uint64> := [9, 5];
    assert RangeJobs(10, 10, 1) == [Job(0, 10)];
    assert ScanJobs([5], 9, 9, 5, 1) == [];
    assert nos[1..] == [5];
    assert !ToDispatch(nos, 5, 10, 7);
  }
}
