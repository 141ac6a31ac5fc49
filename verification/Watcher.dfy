/** One run of the block watcher: advance the cursor to the confirmed tip, recording gaps and
    handing the fetched blocks to the trigger handler in order. */
module Watcher {
  import opened Basics
  import opened Window
  import opened Tracker
  import opened Gaps
  import opened Ledger
  import opened ReorderBuffer

  datatype Network = Network(slug: Slug, window: NetworkConfig, storeBlocks: bool, recoveryEnabled: bool) {
    predicate RecordsGaps() {
      storeBlocks || recoveryEnabled
    }
  }

  /** Everything a run learns from outside: whether the cursor file can be read, the newest block of
      the chain, the answer to the block request, the results of the concurrent block handlers in
      the order in which they come back, and which writes land. If deleting the stored block files
      fails, `deleted` of them are gone by then. */
  datatype WatchEnv = WatchEnv(
    cursorReads: bool,
    latest: Option<nat>,
    answer: Option<seq<Block>>,
    gapsLand: bool,
    process: seq<Block> -> seq<Processed>,
    pipelineFeeds: bool,
    deleteLands: bool,
    deleted: nat,
    saveLands: bool,
    cursorLands: bool)

  /** The numbers under which fetched blocks are processed; a block without number counts as 0. */
  function Handed(blocks: seq<Block>): seq<nat> {
    seq(|blocks|, i requires 0 <= i < |blocks| => blocks[i].GetOr(0))
  }

  /** Block handlers are total: unless feeding the pipeline fails, every fetched block comes back once. */
  ghost predicate AllComeBack(env: WatchEnv) {
    env.pipelineFeeds ==>
      forall blocks :: multiset(ReorderBuffer.NumbersOf(env.process(blocks))) == multiset(Handed(blocks))
  }

  /** The part of the state a run reads and writes for one network. */
  datatype WatchState = WatchState(cursor: Option<nat>, ledger: seq<Entry>, net: Net)

  datatype WatchRun = WatchRun(state: WatchState, fired: seq<Processed>, verdicts: seq<CheckResult>, ok: bool)

  function Tip(network: Network, env: WatchEnv): nat
    requires env.latest.Some?
  {
    network.window.Confirmed(env.latest.value)
  }

  function Start(network: Network, cursor: nat, env: WatchEnv): nat
    requires env.latest.Some? && network.window.Valid()
  {
    StartBlock(cursor, Tip(network, env), network.window.PastBlocks())
  }

  /** The fetched blocks: the tip alone on the first run, the window after that, nothing when the
      tip is not ahead of the cursor. */
  function Fetched(network: Network, cursor: nat, env: WatchEnv): Option<seq<Block>>
    requires env.latest.Some?
  {
    if cursor == 0 || cursor < Tip(network, env) then env.answer else Some([])
  }

  /** The part of a run after the blocks have been fetched. */
  function RunFetched(size: nat, network: Network, s: WatchState, start: nat, tip: nat, blocks: seq<Block>,
      env: WatchEnv): WatchRun {
    var reset := s.(net := Reset(s.net, start));
    var gaps := DetectMissing(blocks);
    if gaps != [] && network.RecordsGaps() && !env.gapsLand then WatchRun(reset, [], [], false)
    else
      var recorded := if network.RecordsGaps() then reset.(ledger := AddMissing(s.ledger, gaps)) else reset;
      var fired := Fire(start, env.process(blocks));
      var ns := ReorderBuffer.NumbersOf(fired);
      var triggered := recorded.(net := CheckAll(size, recorded.net, ns));
      var verdicts := VerdictAll(size, recorded.net, ns);
      if !env.pipelineFeeds || (network.storeBlocks && !(env.deleteLands && env.saveLands)) || !env.cursorLands
      then WatchRun(triggered, fired, verdicts, false)
      else WatchRun(triggered.(cursor := Some(tip)), fired, verdicts, true)
  }

  function Run(size: nat, network: Network, s: WatchState, env: WatchEnv): WatchRun
    requires network.window.Valid()
  {
    if !env.cursorReads || env.latest.None? then WatchRun(s, [], [], false)
    else
      var cursor := s.cursor.GetOr(0);
      match Fetched(network, cursor, env)
      case None => WatchRun(s, [], [], false)
      case Some(blocks) => RunFetched(size, network, s, Start(network, cursor, env), Tip(network, env), blocks, env)
  }

  /** Saves the gaps inside the fetched batch, if this network records gaps. */
  method RecordGaps(network: Network, storage: FileBlockStorage, blocks: seq<Block>, lands: bool) returns (ok: bool)
    modifies storage`missedJson, storage`missedText
    ensures ok == !(DetectMissing(blocks) != [] && network.RecordsGaps() && !lands)
    ensures storage.MissedBlocks() ==
            if ok && network.RecordsGaps() then AddMissing(old(storage.MissedBlocks()), DetectMissing(blocks))
            else old(storage.MissedBlocks())
  {
    var gaps := DetectMissing(blocks);
    ok := true;
    if gaps != [] {
      if network.RecordsGaps() {
        ok := storage.SaveMissedBlocks(gaps, lands);
      }
    } else {
      assert AddMissing(storage.MissedBlocks(), []) == storage.MissedBlocks();
    }
  }

  /** Replaces the stored blocks if the network keeps them, then moves the cursor. */
  method Commit(network: Network, storage: FileBlockStorage, blocks: seq<Block>, tip: nat, env: WatchEnv)
      returns (ok: bool)
    modifies storage`blockFiles, storage`lastBlock
    ensures ok == !((network.storeBlocks && !(env.deleteLands && env.saveLands)) || !env.cursorLands)
    ensures storage.lastBlock == if ok then Some(tip) else old(storage.lastBlock)
    ensures storage.blockFiles ==
            if !network.storeBlocks then old(storage.blockFiles)
            else if !env.deleteLands then Without(old(storage.blockFiles), env.deleted)
            else if env.saveLands then [blocks] else []
  {
    if network.storeBlocks {
      var deleted := storage.DeleteBlocks(env.deleteLands, env.deleted);
      if !deleted {
        return false;
      }
      var saved := storage.SaveBlocks(blocks, env.saveLands);
      if !saved {
        return false;
      }
    }
    ok := storage.SaveLastProcessedBlock(tip, env.cursorLands);
  }

  /** From the tracker reset on. */
  method ProcessFetched(network: Network, storage: FileBlockStorage, tracker: BlockTracker,
                        start: nat, tip: nat, blocks: seq<Block>, env: WatchEnv)
    returns (ok: bool, fired: seq<Processed>, verdicts: seq<CheckResult>)
    modifies storage, tracker
    ensures WatchRun(WatchState(storage.lastBlock, storage.MissedBlocks(), tracker.NetOf(network.slug)), fired,
            verdicts, ok)
         == RunFetched(tracker.historySize, network,
              old(WatchState(storage.lastBlock, storage.MissedBlocks(), tracker.NetOf(network.slug))), start, tip,
                blocks, env)
    ensures forall other :: other != network.slug ==> tracker.NetOf(other) == old(tracker.NetOf(other))
    ensures ok && network.storeBlocks ==> storage.blockFiles == [blocks]
    ensures !network.storeBlocks ==> storage.blockFiles == old(storage.blockFiles)
  {
    hide Fire, CheckAll, VerdictAll, DetectMissing, AddMissing, Check, Verdict, Reset, ReorderBuffer.NumbersOf,
      Migrated;
    tracker.ResetExpectedNext(network.slug, start);
    var recorded := RecordGaps(network, storage, blocks, env.gapsLand);
    if !recorded {
      return false, [], [];
    }
    fired, verdicts := TriggerStage(network.slug, start, env.process(blocks), tracker);
    if !env.pipelineFeeds {
      return false, fired, verdicts;
    }
    ok := Commit(network, storage, blocks, tip, env);
  }

  method ProcessNewBlocks(network: Network, storage: FileBlockStorage, tracker: BlockTracker, env: WatchEnv)
    returns (ok: bool, fired: seq<Processed>, verdicts: seq<CheckResult>)
    requires network.window.Valid()
    modifies storage, tracker
    ensures WatchRun(WatchState(storage.lastBlock, storage.MissedBlocks(), tracker.NetOf(network.slug)), fired,
            verdicts, ok)
         == Run(tracker.historySize, network,
              old(WatchState(storage.lastBlock, storage.MissedBlocks(), tracker.NetOf(network.slug))), env)
    ensures forall other :: other != network.slug ==> tracker.NetOf(other) == old(tracker.NetOf(other))
    ensures ok && network.storeBlocks ==>
              var blocks := Fetched(network, old(storage.lastBlock).GetOr(0), env);
              blocks.Some? && storage.blockFiles == [blocks.value]
    ensures !network.storeBlocks ==> storage.blockFiles == old(storage.blockFiles)
  {
    hide RunFetched;
    if !env.cursorReads || env.latest.None? {
      return false, [], [];
    }
    var last := storage.lastBlock.GetOr(0);
    var tip := network.window.Confirmed(env.latest.value);
    var start := StartBlock(last, tip, network.window.PastBlocks());
    var blocks: seq<Block> := [];
    if last == 0 || last < tip {
      if env.answer.None? {
        return false, [], [];
      }
      blocks := env.answer.value;
    }
    ok, fired, verdicts := ProcessFetched(network, storage, tracker, start, tip, blocks, env);
  }

  // ---------------------------------------------------------------------------------------
  // What one run hands over and what it records.

  lemma SameMultisetSameElems(a: seq<nat>, b: seq<nat>)
    requires multiset(a) == multiset(b)
    ensures Elems(a) == Elems(b)
    ensures Distinct(a) ==> Distinct(b)
  {
    forall n: nat ensures n in a <==> n in b {
      assert n in a <==> n in multiset(a);
      assert n in b <==> n in multiset(b);
    }
    assert Elems(a) == Elems(b);
    if Distinct(a) && !Distinct(b) {
      DistinctCard(a);
      var i, j :| 0 <= i < j < |b| && b[i] == b[j];
      assert |a| == |multiset(a)| == |multiset(b)| == |b|;
      RepeatCard(b, i, j);
      assert false;
    }
  }

  lemma RepeatCard(b: seq<nat>, i: nat, j: nat)
    requires i < j < |b| && b[i] == b[j]
    ensures |Elems(b)| < |b|
  {
    var shorter := b[..i] + b[i + 1..];
    assert Elems(b) <= Elems(shorter) by {
      forall n | n in b ensures n in shorter {
        var k :| 0 <= k < |b| && b[k] == n;
        assert k < i ==> shorter[k] == n;
        assert k > i ==> shorter[k - 1] == n;
        assert k == i ==> shorter[j - 1] == n;
      }
    }
    ElemsCard(shorter);
    SubsetCard(Elems(b), Elems(shorter));
  }

  lemma HandedNumbers(blocks: seq<Block>, n: nat)
    requires 0 < n
    ensures n in Handed(blocks) <==> Some(n) in blocks
  {
    if n in Handed(blocks) {
      var i :| 0 <= i < |blocks| && Handed(blocks)[i] == n;
      assert blocks[i] == Some(n);
    }
    if Some(n) in blocks {
      var i :| 0 <= i < |blocks| && blocks[i] == Some(n);
      assert Handed(blocks)[i] == n;
    }
  }

  /** The numbers handed to the trigger handler are exactly the numbers of the fetched blocks. */
  lemma FiresWhatWasFetched(network: Network, env: WatchEnv, start: nat, blocks: seq<Block>)
    requires AllComeBack(env) && env.pipelineFeeds
    ensures Elems(ReorderBuffer.NumbersOf(Fire(start, env.process(blocks)))) == Elems(Handed(blocks))
  {
    var _, _ := RepeatedArrivals(start, env.process(blocks));
    SameMultisetSameElems(ReorderBuffer.NumbersOf(env.process(blocks)), Handed(blocks));
  }

  /** What a run requests, in terms of the configuration: a number after the cursor that has the required
      confirmations, and not more than the look-back below the confirmed tip. The look-back is the
      configured one, or else the blocks of one cron interval, the confirmations and one more. */
  lemma WindowIff(network: Network, cursor: nat, env: WatchEnv, n: nat)
    requires network.window.Valid() && env.latest.Some?
    ensures var net, latest := network.window, env.latest.value;
            var past :=
              match net.maxPastBlocks
              case Some(blocks) => blocks
              case None => net.cronIntervalMs / net.blockTimeMs + net.confirmationBlocks + 1;
            n in Requested(Start(network, cursor, env), Tip(network, env))
            <==> && cursor < n
                 && n + net.confirmationBlocks <= latest
                 && latest <= n + net.confirmationBlocks + past
  {
    ElemsRange(Start(network, cursor, env), Tip(network, env) + 1);
    hide Range;
  }

  /** How many numbers that are: all after the cursor with the required confirmations, or one more than
      the look-back, whichever is less. */
  lemma WindowCount(network: Network, cursor: nat, env: WatchEnv)
    requires network.window.Valid() && env.latest.Some?
    ensures var net := network.window;
            var past :=
              match net.maxPastBlocks
              case Some(blocks) => blocks
              case None => net.cronIntervalMs / net.blockTimeMs + net.confirmationBlocks + 1;
            var ahead := env.latest.value - net.confirmationBlocks - cursor;
            |Requested(Start(network, cursor, env), Tip(network, env))|
            == if ahead <= 0 then 0 else if ahead <= past then ahead else past + 1
  {
    DistinctCard(Range(Start(network, cursor, env), Tip(network, env) + 1));
  }

  /** The answer reaches down to the first and up to the last requested number. */
  ghost predicate Endpoints(blocks: seq<Block>, start: nat, tip: nat) {
    exists a, b :: Some(a) in blocks && Some(b) in blocks && a <= start && tip <= b
  }

  /** When a run loses nothing, from any cursor. Take a successful run none of whose requested numbers
      is in the ledger already. Afterwards each of them was handed over or is in the ledger if and only
      if the answer holds all of them, or the network records gaps (because it stores blocks or because
      recovery is enabled) and the answer has both endpoints. */
  lemma NothingLostIff(size: nat, network: Network, s: WatchState, env: WatchEnv)
    requires network.window.Valid() && AllComeBack(env) && Run(size, network, s, env).ok
    requires forall n :: n in Requested(Start(network, s.cursor.GetOr(0), env), Tip(network, env)) ==>
             n !in Keys(s.ledger)
    ensures var run := Run(size, network, s, env);
            var start, tip := Start(network, s.cursor.GetOr(0), env), Tip(network, env);
            var blocks := Fetched(network, s.cursor.GetOr(0), env).value;
            (forall n :: n in Requested(start, tip) ==> n in NumbersOf(run.fired) || n in Keys(run.state.ledger))
            <==> || (forall n :: n in Requested(start, tip) ==> Some(n) in blocks)
                 || ((network.storeBlocks || network.recoveryEnabled) && Endpoints(blocks, start, tip))
  {
    var run := Run(size, network, s, env);
    var start, tip := Start(network, s.cursor.GetOr(0), env), Tip(network, env);
    var blocks := Fetched(network, s.cursor.GetOr(0), env).value;
    ElemsRange(start, tip + 1);
    forall n | n in Requested(start, tip)
      ensures (n in NumbersOf(run.fired) || n in Keys(run.state.ledger))
              <==> Some(n) in blocks || (network.RecordsGaps() && n in DetectMissing(blocks))
    {
      RequestedFate(size, network, s, env, n);
    }
    if start <= tip {
      assert start in Requested(start, tip) && tip in Requested(start, tip);
      EndpointsCover(blocks, start, tip);
    }
    hide Run, Requested, DetectMissing;
  }

  /** Which numbers a successful run adds to the ledger: those that were not fetched although they lie
      between two fetched numbers, if and only if the network stores blocks or has recovery enabled. */
  lemma GapsRecordedIff(size: nat, network: Network, s: WatchState, env: WatchEnv, n: nat)
    requires network.window.Valid() && Run(size, network, s, env).ok && n !in Keys(s.ledger)
    ensures var blocks := Fetched(network, s.cursor.GetOr(0), env).value;
            n in Keys(Run(size, network, s, env).state.ledger)
            <==> && (network.storeBlocks || network.recoveryEnabled)
                 && Some(n) !in blocks && exists a, b :: Some(a) in blocks && Some(b) in blocks && a < n < b
  {
    var blocks := Fetched(network, s.cursor.GetOr(0), env).value;
    AddMissingKeeps(s.ledger, DetectMissing(blocks));
    GapsAreBracketed(blocks, n);
    hide Fire, DetectMissing, AddMissing, CheckAll, VerdictAll, Start;
    assert n in DetectMissing(blocks) <==> n in Elems(DetectMissing(blocks));
  }

  /** A run that records gaps hands over no block before its gaps are in the ledger. */
  lemma GapsBeforeBlocks(size: nat, network: Network, s: WatchState, env: WatchEnv, n: nat)
    requires network.window.Valid() && Run(size, network, s, env).fired != []
    requires network.storeBlocks || network.recoveryEnabled
    ensures var blocks := Fetched(network, s.cursor.GetOr(0), env);
            && env.latest.Some? && blocks.Some?
            && (Some(n) !in blocks.value
                && (exists a, b :: Some(a) in blocks.value && Some(b) in blocks.value && a < n < b) ==>
                  n in Keys(Run(size, network, s, env).state.ledger))
  {
    var blocks := Fetched(network, s.cursor.GetOr(0), env).value;
    AddMissingKeeps(s.ledger, DetectMissing(blocks));
    GapsAreBracketed(blocks, n);
    hide Fire, DetectMissing, AddMissing, CheckAll, VerdictAll, Start;
    assert n in DetectMissing(blocks) <==> n in Elems(DetectMissing(blocks));
  }

  /** There is a number between two fetched ones that was not fetched. */
  ghost predicate HasGap(blocks: seq<Block>) {
    exists a, n, b :: Some(a) in blocks && Some(n) !in blocks && Some(b) in blocks && a < n < b
  }

  /** When a run ends well: what it reads can be read, gaps that are to be recorded are written, the
      pipeline is fed, stored blocks are replaced if the network keeps them, and the cursor is written.
      The cursor moves exactly then, to the newest block with the required confirmations. */
  lemma EndsWellIff(size: nat, network: Network, s: WatchState, env: WatchEnv)
    requires network.window.Valid()
    ensures var run := Run(size, network, s, env);
            var confirmations, last := network.window.confirmationBlocks, s.cursor.GetOr(0);
            && (run.ok <==>
                  && env.cursorReads && env.latest.Some?
                  && (last == 0 || last + confirmations < env.latest.value ==>
                        && env.answer.Some?
                        && (HasGap(env.answer.value) && (network.storeBlocks || network.recoveryEnabled) ==>
                              env.gapsLand))
                  && env.pipelineFeeds
                  && (network.storeBlocks ==> env.deleteLands && env.saveLands)
                  && env.cursorLands)
            && (run.ok && confirmations <= env.latest.value ==>
                  run.state.cursor == Some(env.latest.value - confirmations))
            && (run.ok && env.latest.value < confirmations ==> run.state.cursor == Some(0))
            && (!run.ok ==> run.state.cursor == s.cursor)
  {
    if env.cursorReads && env.latest.Some? && Fetched(network, s.cursor.GetOr(0), env).Some? {
      HasGapIff(Fetched(network, s.cursor.GetOr(0), env).value);
    }
    hide Fire, DetectMissing, AddMissing, CheckAll, VerdictAll, Reset, HasGap, Start;
    assert !HasGap([]) by {
      NoBlocksNoGap();
    }
  }

  lemma NoBlocksNoGap()
    ensures !HasGap([])
  {
  }

  lemma HasGapIff(blocks: seq<Block>)
    ensures HasGap(blocks) <==> DetectMissing(blocks) != []
  {
    hide DetectMissing;
    if DetectMissing(blocks) != [] {
      GapsAreBracketed(blocks, DetectMissing(blocks)[0]);
    }
    if a, n, b :| Some(a) in blocks && Some(n) !in blocks && Some(b) in blocks && a < n < b {
      GapsAreBracketed(blocks, n);
    }
  }

  lemma RequestedFate(size: nat, network: Network, s: WatchState, env: WatchEnv, n: nat)
    requires network.window.Valid() && AllComeBack(env) && Run(size, network, s, env).ok
    requires 0 < n && n !in Keys(s.ledger)
    ensures var run := Run(size, network, s, env);
            var blocks := Fetched(network, s.cursor.GetOr(0), env).value;
            (n in NumbersOf(run.fired) || n in Keys(run.state.ledger))
            <==> Some(n) in blocks || (network.RecordsGaps() && n in DetectMissing(blocks))
  {
    var run := Run(size, network, s, env);
    var start := Start(network, s.cursor.GetOr(0), env);
    var blocks := Fetched(network, s.cursor.GetOr(0), env).value;
    FiresWhatWasFetched(network, env, start, blocks);
    HandedNumbers(blocks, n);
    AddMissingKeeps(s.ledger, DetectMissing(blocks));
    assert run.fired == Fire(start, env.process(blocks));
    hide Fire, Handed, DetectMissing, AddMissing, CheckAll, VerdictAll, Start;
    assert n in NumbersOf(run.fired) <==> n in Elems(NumbersOf(run.fired));
    assert n in Handed(blocks) <==> n in Elems(Handed(blocks));
    assert n in DetectMissing(blocks) <==> n in Elems(DetectMissing(blocks));
  }

  /** The run from cursor 0 asks for the tip alone, although its window may reach further down. With
      such an answer it covers its window exactly if the confirmed tip is block 0 or block 1. */
  lemma FirstRunCoversIff(size: nat, network: Network, s: WatchState, env: WatchEnv)
    requires network.window.Valid() && AllComeBack(env) && Run(size, network, s, env).ok
    requires s.cursor.GetOr(0) == 0 && env.answer == Some([Some(Tip(network, env))])
    requires forall n :: n in Requested(Start(network, 0, env), Tip(network, env)) ==> n !in Keys(s.ledger)
    ensures (forall n :: n in Requested(Start(network, 0, env), Tip(network, env)) ==>
               n in NumbersOf(Run(size, network, s, env).fired) || n in Keys(Run(size, network, s, env).state.ledger))
            <==> Tip(network, env) <= 1
  {
    var start, tip := Start(network, 0, env), Tip(network, env);
    NothingLostIff(size, network, s, env);
    hide Run, Requested, NetworkConfig.PastBlocks, StartBlock, Endpoints;
    OneBlockCovers(start, tip);
    StartBelowTip(network, tip);
  }

  lemma StartBelowTip(network: Network, tip: nat)
    requires network.window.Valid()
    ensures StartBlock(0, tip, network.window.PastBlocks()) < tip <==> 1 < tip
  {
    assert 1 <= network.window.PastBlocks();
    hide NetworkConfig.PastBlocks;
  }

  lemma OneBlockCovers(start: nat, tip: nat)
    ensures (forall n :: n in Requested(start, tip) ==> Some(n) in [Some(tip)]) <==> tip <= start
    ensures Endpoints([Some(tip)], start, tip) <==> tip <= start
  {
    ElemsRange(start, tip + 1);
    if start < tip {
      assert start in Requested(start, tip);
    } else {
      assert Some(tip) in [Some(tip)];
    }
  }

  // ---------------------------------------------------------------------------------------
  // What a second run at the same tip hands over.

  /** The second run finds the chain as the first one did and gets the same answers. */
  ghost predicate SameChain(env: WatchEnv, next: WatchEnv) {
    next.cursorReads && next.latest == env.latest && next.answer == env.answer && next.process == env.process
      && next.gapsLand
  }

  /** Blocks are handed over again by the next run at the same tip if and only if the first run did not
      end well (feeding the pipeline, deleting or saving the stored blocks, or writing the cursor
      failed), or the confirmed tip is block 0. */
  lemma HandedOverAgainIff(size: nat, network: Network, s: WatchState, env: WatchEnv, next: WatchEnv)
    requires network.window.Valid() && SameChain(env, next) && env.process([]) == []
    requires Run(size, network, s, env).fired != []
    ensures var first := Run(size, network, s, env);
            var second := Run(size, network, first.state, next);
            second.fired == (if !first.ok || Tip(network, env) == 0 then first.fired else [])
  {
    hide Fire, DetectMissing, AddMissing, CheckAll, VerdictAll, Reset;
    FiresNothing(Start(network, s.cursor.GetOr(0), env));
    FiresNothing(Start(network, Tip(network, env), env));
  }

  /** The answer, if one was asked for, lies inside the window. */
  ghost predicate InWindow(network: Network, cursor: nat, env: WatchEnv)
    requires env.latest.Some? && network.window.Valid()
  {
    Fetched(network, cursor, env).Some? ==>
      forall n :: Some(n) in Fetched(network, cursor, env).value ==>
        Start(network, cursor, env) <= n <= Tip(network, env)
  }

  /** The second run gets its blocks and gets past saving the gaps. */
  predicate Fires(network: Network, cursor: nat, env: WatchEnv) {
    env.cursorReads && env.latest.Some? && Fetched(network, cursor, env).Some? && env.gapsLand && env.pipelineFeeds
  }

  /** At any later tip: a block handed over by one run is handed over again by the next one if and only if
      the first run did not move the cursor and the second answer, for the window from the same cursor,
      holds the block again. */
  lemma HandedOverLaterIff(size: nat, network: Network, s: WatchState, env: WatchEnv, next: WatchEnv, n: nat)
    requires network.window.Valid() && AllComeBack(env) && AllComeBack(next) && 0 < n
    requires env.cursorReads && env.latest.Some? && env.pipelineFeeds
             && n in NumbersOf(Run(size, network, s, env).fired)
    requires var cursor := Run(size, network, s, env).state.cursor.GetOr(0);
             Fires(network, cursor, next) && InWindow(network, cursor, next)
    requires InWindow(network, s.cursor.GetOr(0), env)
    ensures var first := Run(size, network, s, env);
            n in NumbersOf(Run(size, network, first.state, next).fired)
            <==> !first.ok && Some(n) in Fetched(network, s.cursor.GetOr(0), next).GetOr([])
  {
    var first := Run(size, network, s, env);
    RunFires(size, network, s, env, n);
    RunFires(size, network, first.state, next, n);
    RunCursor(size, network, s, env);
    hide Run;
  }

  lemma RunCursor(size: nat, network: Network, s: WatchState, env: WatchEnv)
    requires network.window.Valid()
    ensures var run := Run(size, network, s, env);
            if run.ok then env.latest.Some? && run.state.cursor == Some(Tip(network, env))
              else run.state.cursor == s.cursor
  {
    hide Fire, DetectMissing, AddMissing, CheckAll, VerdictAll, Reset;
  }

  lemma RunFires(size: nat, network: Network, s: WatchState, env: WatchEnv, n: nat)
    requires network.window.Valid() && AllComeBack(env) && 0 < n
    requires env.cursorReads && env.latest.Some? && env.pipelineFeeds
    ensures var blocks := Fetched(network, s.cursor.GetOr(0), env);
            && (n in NumbersOf(Run(size, network, s, env).fired) ==> blocks.Some? && Some(n) in blocks.value)
            && (Fires(network, s.cursor.GetOr(0), env) && Some(n) in blocks.value ==>
              n in NumbersOf(Run(size, network, s, env).fired))
  {
    var fetched := Fetched(network, s.cursor.GetOr(0), env);
    if fetched.Some? {
      var start, blocks := Start(network, s.cursor.GetOr(0), env), fetched.value;
      FiresWhatWasFetched(network, env, start, blocks);
      HandedNumbers(blocks, n);
      var run := Run(size, network, s, env);
      assert run.fired == [] || run.fired == Fire(start, env.process(blocks));
      assert env.gapsLand ==> run.fired == Fire(start, env.process(blocks));
      hide Fire, Handed, DetectMissing, AddMissing, CheckAll, VerdictAll, Start, Run;
      var fired := NumbersOf(Fire(start, env.process(blocks)));
      assert n in fired <==> n in Elems(fired);
      assert n in Handed(blocks) <==> n in Elems(Handed(blocks));
    }
  }

  lemma FiresNothing(start: nat)
    ensures Fire(start, []) == []
  {
  }

  /** What the tracker says to a batch of new numbers that is handed over a second time: it reports
      all of them as duplicates if the batch fits its window, and none of them otherwise. */
  lemma DuplicatesIffWindowHolds(size: nat, net: Net, start: nat, ns: seq<nat>)
    requires Distinct(ns) && |net.history| <= size && forall n :: n in ns ==> n !in net.history
    ensures var verdicts := VerdictAll(size, Reset(CheckAll(size, net, ns), start), ns);
            && |verdicts| == |ns|
            && forall i :: 0 <= i < |ns| ==> (verdicts[i].Duplicate? <==> |ns| <= size)
  {
    hide *;
    CheckNew(size, net, ns);
    var again := Reset(CheckAll(size, net, ns), start);
    assert again.history == LastN(net.history + ns, size) by {
      ResetKeepsHistory(CheckAll(size, net, ns), start);
    }
    Recheck(size, net.history, again, ns, |ns|);
    assert ns[..|ns|] == ns;
  }

  /** So much for the second run: if it hands new, distinct numbers over again, it reports every one of
      them as a duplicate if they fit the window of the tracker, and none of them otherwise. */
  lemma RepeatedVerdicts(size: nat, network: Network, s: WatchState, env: WatchEnv, next: WatchEnv)
    requires network.window.Valid() && SameChain(env, next) && env.process([]) == [] && |s.net.history| <= size
    requires var first := Run(size, network, s, env);
             && !first.ok && first.fired != [] && Distinct(NumbersOf(first.fired))
             && forall n :: n in NumbersOf(first.fired) ==> n !in s.net.history
    ensures var first := Run(size, network, s, env);
            var second := Run(size, network, first.state, next);
            && |second.verdicts| == |first.fired|
            && forall i :: 0 <= i < |first.fired| ==> (second.verdicts[i].Duplicate? <==> |first.fired| <= size)
  {
    var start := Start(network, s.cursor.GetOr(0), env);
    var first := Run(size, network, s, env);
    hide Fire, DetectMissing, AddMissing, CheckAll, VerdictAll, Reset;
    HandedOverAgainIff(size, network, s, env, next);
    ResetKeepsHistory(s.net, start);
    DuplicatesIffWindowHolds(size, Reset(s.net, start), start, NumbersOf(first.fired));
  }

  lemma ResetKeepsHistory(net: Net, start: nat)
    ensures Reset(net, start).history == net.history
  {
  }

  /** Checking new numbers appends them to the window. */
  lemma {:induction false} CheckNew(size: nat, net: Net, ns: seq<nat>)
    requires Distinct(ns) && |net.history| <= size && forall n :: n in ns ==> n !in net.history
    ensures CheckAll(size, net, ns).history == LastN(net.history + ns, size)
  {
    if ns == [] {
      assert net.history + ns == net.history;
    } else {
      var init, n := ns[..|ns| - 1], ns[|ns| - 1];
      assert ns == init + [n];
      hide CheckAll, VerdictAll, LastN, Check;
      CheckNew(size, net, init);
      CheckAllSnoc(size, net, init, n);
      NewOne(size, net.history, init, n, CheckAll(size, net, init));
    }
  }

  lemma NewOne(size: nat, past: seq<nat>, init: seq<nat>, n: nat, net: Net)
    requires Distinct(init + [n]) && n !in past && net.history == LastN(past + init, size)
    ensures Check(size, net, n).history == LastN(past + (init + [n]), size)
  {
    var all := init + [n];
    forall i | 0 <= i < |init| ensures init[i] != n {
      assert all[i] == init[i] && all[|init|] == n;
    }
    assert n !in past + init;
    TailOf(past + init, size, n);
    LastNExtend(past + init, n, size);
    hide LastN;
    Associative(past, init, [n]);
  }

  lemma TailOf(s: seq<nat>, size: nat, n: nat)
    requires n !in s
    ensures n !in LastN(s, size)
  {
  }

  /** The first k checks of the second pass. */
  lemma {:induction false} Recheck(size: nat, past: seq<nat>, again: Net, ns: seq<nat>, k: nat)
    requires Distinct(ns) && k <= |ns| && again.history == LastN(past + ns, size) && forall n :: n in ns ==> n !in past
    ensures CheckAll(size, again, ns[..k]).history == LastN(past + ns + (if |ns| <= size then [] else ns[..k]), size)
    ensures |VerdictAll(size, again, ns[..k])| == k
    ensures forall i :: 0 <= i < k ==> (VerdictAll(size, again, ns[..k])[i].Duplicate? <==> |ns| <= size)
  {
    if k == 0 {
      hide LastN;
      assert past + ns + [] == past + ns;
    } else {
      hide *;
      var net := CheckAll(size, again, ns[..k - 1]);
      Recheck(size, past, again, ns, k - 1);
      assert ns[..k] == ns[..k - 1] + [ns[k - 1]];
      CheckAllSnoc(size, again, ns[..k - 1], ns[k - 1]);
      RecheckOne(size, past, ns, k - 1, net);
      VerdictsSnoc(VerdictAll(size, again, ns[..k - 1]), Verdict(net, ns[k - 1]), |ns| <= size);
    }
  }

  lemma VerdictsSnoc(verdicts: seq<CheckResult>, last: CheckResult, dup: bool)
    requires (forall i :: 0 <= i < |verdicts| ==> (verdicts[i].Duplicate? <==> dup)) && (last.Duplicate? <==> dup)
    ensures forall i :: 0 <= i < |verdicts + [last]| ==> ((verdicts + [last])[i].Duplicate? <==> dup)
  {
  }

  lemma RecheckOne(size: nat, past: seq<nat>, ns: seq<nat>, k: nat, net: Net)
    requires Distinct(ns) && k < |ns| && forall n :: n in ns ==> n !in past
    requires net.history == LastN(past + ns + (if |ns| <= size then [] else ns[..k]), size)
    ensures Verdict(net, ns[k]).Duplicate? <==> |ns| <= size
    ensures Check(size, net, ns[k]).history == LastN(past + ns + (if |ns| <= size then [] else ns[..k + 1]), size)
  {
    if |ns| <= size {
      assert past + ns + [] == past + ns;
      assert LastN(past + ns, size)[|LastN(past + ns, size)| - |ns| + k] == ns[k];
    } else {
      var log := past + ns + ns[..k];
      RotationAvoids(size, past, ns, k);
      LastNExtend(log, ns[k], size);
      assert log + [ns[k]] == past + ns + ns[..k + 1];
    }
  }

  lemma RotationAvoids(size: nat, past: seq<nat>, ns: seq<nat>, k: nat)
    requires Distinct(ns) && k < |ns| && size < |ns|
    ensures ns[k] !in LastN(past + ns + ns[..k], size)
  {
    var log := past + ns + ns[..k];
    var tail := LastN(log, size);
    forall i | 0 <= i < |tail| ensures tail[i] != ns[k] {
      var at := |log| - size + i;
      assert tail[i] == log[at];
      if at < |past| + |ns| {
        assert log[at] == ns[at - |past|];
      } else {
        assert log[at] == ns[at - |past| - |ns|];
      }
    }
  }

  lemma EndpointsCover(blocks: seq<Block>, start: nat, tip: nat)
    requires start <= tip
    ensures (forall n :: start <= n <= tip ==> Some(n) in blocks || n in DetectMissing(blocks))
            <==> Endpoints(blocks, start, tip)
  {
    GapsAreBracketed(blocks, start);
    GapsAreBracketed(blocks, tip);
    if a, b :| Some(a) in blocks && Some(b) in blocks && a <= start && tip <= b {
      forall n | start <= n <= tip ensures Some(n) in blocks || n in DetectMissing(blocks) {
        GapsAreBracketed(blocks, n);
        if Some(n) !in blocks {
          assert a < n < b;
        }
      }
    }
  }
}
