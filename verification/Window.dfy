/** The look-back window of one watcher run: which block numbers after the cursor are requested
    from the node and which are passed over. */
module Window {
  import opened Basics

  datatype NetworkConfig = NetworkConfig(
    cronIntervalMs: nat,
    blockTimeMs: nat,
    confirmationBlocks: nat,
    maxPastBlocks: Option<nat>)
  {
    /** The numeric checks of the configuration validator. */
    predicate Valid() {
      100 <= blockTimeMs && 0 < confirmationBlocks && (maxPastBlocks.Some? ==> 0 < maxPastBlocks.value)
    }

    function RecommendedPastBlocks(): nat
      requires 0 < blockTimeMs
    {
      cronIntervalMs / blockTimeMs + confirmationBlocks + 1
    }

    function PastBlocks(): nat
      requires 0 < blockTimeMs
    {
      if maxPastBlocks.Some? then maxPastBlocks.value else RecommendedPastBlocks()
    }

    function Confirmed(latest: nat): nat {
      SatSub(latest, confirmationBlocks)
    }
  }

  /** First block number requested: the one after the cursor, unless the window is shorter. */
  function StartBlock(cursor: nat, tip: nat, maxPast: nat): nat {
    Max(cursor + 1, SatSub(tip, maxPast))
  }

  /** Numbers a run passes over without requesting them. */
  function Skipped(cursor: nat, start: nat): set<nat> {
    Elems(Range(cursor + 1, start))
  }

  function Requested(start: nat, tip: nat): set<nat> {
    Elems(Range(start, tip + 1))
  }

  /** With the cursor below the confirmed tip, the numbers after the cursor up to the tip split
      into skipped and requested ones; at most maxPast + 1 are requested; and none is skipped
      exactly when the window reaches back to the cursor. */
  lemma WindowPartition(cursor: nat, tip: nat, maxPast: nat)
    requires cursor < tip
    ensures var start := StartBlock(cursor, tip, maxPast);
            && Skipped(cursor, start) !! Requested(start, tip)
            && Skipped(cursor, start) + Requested(start, tip) == Elems(Range(cursor + 1, tip + 1))
            && 1 <= |Requested(start, tip)| <= maxPast + 1
            && (Skipped(cursor, start) == {} <==> SatSub(tip, maxPast) <= cursor + 1)
  {
    hide Range;
    var start := StartBlock(cursor, tip, maxPast);
    ElemsRange(cursor + 1, start);
    ElemsRange(start, tip + 1);
    ElemsRange(cursor + 1, tip + 1);
    DistinctCard(Range(start, tip + 1));
    assert |Requested(start, tip)| == tip + 1 - start;
    if cursor + 1 < start {
      assert cursor + 1 in Skipped(cursor, start);
    }
  }

  /** Blocks first + 1, ..., first + count appear at least blockTime apart. */
  lemma {:induction false} SpacedBlocks(time: nat -> int, blockTime: nat, first: nat, count: nat)
    requires 1 <= count
    requires forall n: nat :: time(n) + blockTime <= time(n + 1)
    ensures time(first + 1) + (count - 1) * blockTime <= time(first + count)
  {
    if 1 < count {
      SpacedBlocks(time, blockTime, first, count - 1);
      assert time(first + (count - 1)) + blockTime <= time((first + (count - 1)) + 1);
      assert (count - 2) * blockTime + blockTime == (count - 1) * blockTime;
    }
  }

  /** The default window is long enough. Block n exists from time(n) on; one run saw `before` as
      the newest block at time `previous`, the next one saw `after` at time `now`, at most one cron
      interval later. If blocks are at least blockTimeMs apart, the second run skips nothing. */
  lemma DefaultWindowSkipsNothing(
    net: NetworkConfig, time: nat -> int, before: nat, after: nat, previous: int, now: int)
    requires net.Valid() && net.maxPastBlocks == None
    requires forall n: nat :: time(n) + net.blockTimeMs <= time(n + 1)
    requires previous <= now <= previous + net.cronIntervalMs
    requires previous < time(before + 1)
    requires time(after) <= now
    ensures var cursor := net.Confirmed(before);
            Skipped(cursor, StartBlock(cursor, net.Confirmed(after), net.PastBlocks())) == {}
  {
    var cursor := net.Confirmed(before);
    if before < after {
      var count := after - before;
      SpacedBlocks(time, net.blockTimeMs, before, count);
      DivBound(count - 1, net.blockTimeMs, net.cronIntervalMs);
      assert after - before <= net.cronIntervalMs / net.blockTimeMs + 1;
    }
    assert SatSub(net.Confirmed(after), net.PastBlocks()) <= cursor + 1;
  }
}
