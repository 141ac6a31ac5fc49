/** The block tracker: a sliding window of recently processed numbers and the next number
    expected, kept per network and updated in place. */
module Tracker {
  import opened Basics

  type Slug = string

  datatype CheckResult =
    | InOrder
    | Duplicate(lastSeen: nat)
    | OutOfOrder(expected: nat, received: nat)

  /** What the tracker knows about one network. */
  datatype Net = Net(history: seq<nat>, expected: Option<nat>)

  const FRESH := Net([], None)

  function LastN(s: seq<nat>, n: nat): seq<nat> {
    if |s| <= n then s else s[|s| - n..]
  }

  /** Effect of checking number n when at most `size` numbers are remembered. */
  function Check(size: nat, net: Net, n: nat): Net {
    var expected := net.expected.GetOr(n);
    if n in net.history then net.(expected := Some(expected))
    else Net(LastN(net.history + [n], size), Some(Max(expected, n + 1)))
  }

  function Verdict(net: Net, n: nat): CheckResult {
    if n in net.history then Duplicate(net.history[|net.history| - 1])
    else if n < net.expected.GetOr(n) then OutOfOrder(net.expected.GetOr(n), n)
    else InOrder
  }

  /** Resetting only ever lowers the next expected number. */
  function Reset(net: Net, start: nat): Net {
    match net.expected
    case Some(e) => if start < e then net.(expected := Some(start)) else net
    case None => net.(expected := Some(start))
  }

  function CheckAll(size: nat, net: Net, ns: seq<nat>): Net {
    if ns == [] then net else Check(size, CheckAll(size, net, ns[..|ns| - 1]), ns[|ns| - 1])
  }

  function VerdictAll(size: nat, net: Net, ns: seq<nat>): seq<CheckResult> {
    if ns == [] then []
    else VerdictAll(size, net, ns[..|ns| - 1]) + [Verdict(CheckAll(size, net, ns[..|ns| - 1]), ns[|ns| - 1])]
  }

  class BlockTracker {
    var processedHistory: map<Slug, seq<nat>>
    var expectedNext: map<Slug, nat>
    const historySize: nat

    constructor (historySize: nat)
      ensures this.historySize == historySize
      ensures forall slug :: NetOf(slug) == FRESH
    {
      this.historySize := historySize;
      processedHistory := map[];
      expectedNext := map[];
    }

    function NetOf(slug: Slug): Net
      reads this
    {
      Net(if slug in processedHistory then processedHistory[slug] else [],
          if slug in expectedNext then Some(expectedNext[slug]) else None)
    }

    method GetLastBlock(slug: Slug) returns (last: Option<nat>)
      ensures last == None <==> NetOf(slug).history == []
      ensures last.Some? ==> last.value in NetOf(slug).history
      ensures last.Some? ==> forall n :: n in NetOf(slug).history ==> n <= last.value
    {
      if slug in processedHistory && processedHistory[slug] != [] {
        var numbers := Elems(processedHistory[slug]);
        ElemsEmpty(processedHistory[slug]);
        last := Some(MaxOf(numbers));
        assert forall n :: n in NetOf(slug).history ==> n in numbers;
      } else {
        last := None;
      }
    }

    method CheckProcessedBlock(slug: Slug, n: nat) returns (result: CheckResult)
      modifies this
      ensures NetOf(slug) == Check(historySize, old(NetOf(slug)), n)
      ensures result == Verdict(old(NetOf(slug)), n)
      ensures forall other :: other != slug ==> NetOf(other) == old(NetOf(other))
    {
      var history := if slug in processedHistory then processedHistory[slug] else [];
      var expected := if slug in expectedNext then expectedNext[slug] else n;
      processedHistory := processedHistory[slug := history];
      expectedNext := expectedNext[slug := expected];
      if n in history {
        return Duplicate(history[|history| - 1]);
      }
      result := if n < expected then OutOfOrder(expected, n) else InOrder;
      history := history + [n];
      if expected <= n {
        expected := n + 1;
      }
      history := TrimHistory(history);
      processedHistory := processedHistory[slug := history];
      expectedNext := expectedNext[slug := expected];
    }

    /** Pops from the front until the history fits. */
    method TrimHistory(full: seq<nat>) returns (history: seq<nat>)
      ensures history == LastN(full, historySize)
    {
      history := full;
      while historySize < |history|
        invariant |history| <= |full| && history == full[|full| - |history|..]
        invariant |history| == |full| || historySize <= |history|
      {
        history := history[1..];
      }
    }

    method ResetExpectedNext(slug: Slug, start: nat)
      modifies this
      ensures NetOf(slug) == Reset(old(NetOf(slug)), start)
      ensures forall other :: other != slug ==> NetOf(other) == old(NetOf(other))
    {
      if slug in expectedNext {
        if start < expectedNext[slug] {
          expectedNext := expectedNext[slug := start];
        }
      } else {
        expectedNext := expectedNext[slug := start];
      }
    }
  }

  // ---------------------------------------------------------------------------------------
  // Whole call sequences, interleaved over any number of networks.

  datatype Call = CheckCall(slug: Slug, n: nat) | ResetCall(slug: Slug, start: nat)

  function NetIn(nets: map<Slug, Net>, slug: Slug): Net {
    if slug in nets then nets[slug] else FRESH
  }

  function Apply(size: nat, net: Net, call: Call): Net {
    match call
    case CheckCall(_, n) => Check(size, net, n)
    case ResetCall(_, start) => Reset(net, start)
  }

  /** All networks together, one call after the other. */
  function RunAll(size: nat, calls: seq<Call>): map<Slug, Net> {
    if calls == [] then map[]
    else
      var before := RunAll(size, calls[..|calls| - 1]);
      var call := calls[|calls| - 1];
      before[call.slug := Apply(size, NetIn(before, call.slug), call)]
  }

  /** The calls that concern one network. */
  function Of(calls: seq<Call>, slug: Slug): seq<Call> {
    if calls == [] then []
    else Of(calls[..|calls| - 1], slug) + if calls[|calls| - 1].slug == slug then [calls[|calls| - 1]] else []
  }

  /** The full log of a network: every number whose check was not answered Duplicate. */
  function Log(size: nat, calls: seq<Call>, slug: Slug): seq<nat> {
    if calls == [] then []
    else
      var log := Log(size, calls[..|calls| - 1], slug);
      match calls[|calls| - 1]
      case CheckCall(s, n) => if s == slug && n !in LastN(log, size) then log + [n] else log
      case ResetCall(_, _) => log
  }

  lemma LastNExtend(s: seq<nat>, n: nat, size: nat)
    ensures LastN(LastN(s, size) + [n], size) == LastN(s + [n], size)
  {
  }

  lemma WindowStep(size: nat, net: Net, n: nat)
    requires Distinct(net.history) && |net.history| <= size
    ensures Distinct(Check(size, net, n).history) && |Check(size, net, n).history| <= size
  {
  }

  lemma RunAllSnoc(size: nat, calls: seq<Call>, call: Call)
    ensures RunAll(size, calls + [call])
            == RunAll(size, calls)[call.slug := Apply(size, NetIn(RunAll(size, calls), call.slug), call)]
    ensures forall slug :: Of(calls + [call], slug) == Of(calls, slug) + if call.slug == slug then [call] else []
  {
    assert (calls + [call])[..|calls|] == calls;
  }

  lemma LogSnoc(size: nat, calls: seq<Call>, call: Call, slug: Slug)
    ensures var log := Log(size, calls, slug);
            Log(size, calls + [call], slug) ==
            if call.CheckCall? && call.slug == slug && call.n !in LastN(log, size) then log + [call.n] else log
  {
    assert (calls + [call])[..|calls|] == calls;
  }

  /** The window is the tail of the full log, holds no number twice, and never outgrows its size;
      calls for other networks leave no trace in it. */
  lemma {:induction false} WindowIsLogTail(size: nat, calls: seq<Call>, slug: Slug)
    ensures var net := NetIn(RunAll(size, calls), slug);
            && net.history == LastN(Log(size, calls, slug), size)
            && Distinct(net.history)
            && |net.history| <= size
            && NetIn(RunAll(size, Of(calls, slug)), slug) == net
  {
    if calls != [] {
      var before, call := calls[..|calls| - 1], calls[|calls| - 1];
      assert calls == before + [call];
      WindowIsLogTail(size, before, slug);
      hide *;
      WindowSnoc(size, before, call, slug);
      OwnCallsSnoc(size, before, call, slug);
    }
  }

  lemma WindowSnoc(size: nat, calls: seq<Call>, call: Call, slug: Slug)
    requires var net := NetIn(RunAll(size, calls), slug);
             net.history == LastN(Log(size, calls, slug), size) && Distinct(net.history) && |net.history| <= size
    ensures var net := NetIn(RunAll(size, calls + [call]), slug);
            net.history == LastN(Log(size, calls + [call], slug), size) && Distinct(net.history)
              && |net.history| <= size
  {
    RunAllSnoc(size, calls, call);
    LogSnoc(size, calls, call, slug);
    hide RunAll, Log, LastN, Distinct;
    if call.slug == slug && call.CheckCall? {
      WindowStep(size, NetIn(RunAll(size, calls), slug), call.n);
      LastNExtend(Log(size, calls, slug), call.n, size);
    }
  }

  lemma OwnCallsSnoc(size: nat, calls: seq<Call>, call: Call, slug: Slug)
    requires NetIn(RunAll(size, Of(calls, slug)), slug) == NetIn(RunAll(size, calls), slug)
    ensures NetIn(RunAll(size, Of(calls + [call], slug)), slug) == NetIn(RunAll(size, calls + [call]), slug)
  {
    RunAllSnoc(size, calls, call);
    OfSnoc(calls, call, slug);
    hide RunAll, Of, Check, Reset;
    if call.slug == slug {
      RunAllSnoc(size, Of(calls, slug), call);
    }
  }

  lemma OfSnoc(calls: seq<Call>, call: Call, slug: Slug)
    ensures Of(calls + [call], slug) == if call.slug == slug then Of(calls, slug) + [call] else Of(calls, slug)
  {
    assert (calls + [call])[..|calls|] == calls;
  }

  /** One of the last `size` numbers of a log. */
  ghost predicate Recent(log: seq<nat>, size: nat, n: nat) {
    exists i :: 0 <= i < |log| && |log| <= i + size && log[i] == n
  }

  /** A check is answered Duplicate exactly when the number is one of the last `size` numbers of
      the network's log, whatever happened on other networks in between. */
  lemma DuplicateIffInWindow(size: nat, calls: seq<Call>, slug: Slug, n: nat)
    ensures Verdict(NetIn(RunAll(size, calls), slug), n).Duplicate? <==> Recent(Log(size, calls, slug), size, n)
  {
    WindowIsLogTail(size, calls, slug);
    InTail(Log(size, calls, slug), size, n);
  }

  lemma InTail(log: seq<nat>, size: nat, n: nat)
    ensures n in LastN(log, size) <==> Recent(log, size, n)
    ensures LastN(log, size) != [] ==> LastN(log, size)[|LastN(log, size)| - 1] == log[|log| - 1]
  {
    var tail := LastN(log, size);
    var drop := |log| - |tail|;
    if n in tail {
      var j :| 0 <= j < |tail| && tail[j] == n;
      assert log[drop + j] == n;
    }
    if i :| 0 <= i < |log| && |log| <= i + size && log[i] == n {
      assert tail[i - drop] == n;
    }
  }

  /** Calls of one network without any reset. */
  ghost predicate OnlyChecks(calls: seq<Call>, slug: Slug) {
    forall i :: 0 <= i < |calls| && calls[i].slug == slug ==> calls[i].CheckCall?
  }

  /** `end` is the start value raised to one more than the greatest of the recorded numbers. */
  ghost predicate HighWater(start: nat, recorded: seq<nat>, end: nat) {
    && start <= end
    && (forall n :: n in recorded ==> n < end)
    && (end == start || end - 1 in recorded)
  }

  lemma HighWaterSnoc(start: nat, recorded: seq<nat>, end: nat, n: nat)
    requires HighWater(start, recorded, end)
    ensures HighWater(start, recorded + [n], Max(end, n + 1))
  {
    assert (recorded + [n])[|recorded|] == n;
    assert forall m :: m in recorded ==> m in recorded + [n];
  }

  lemma ExpectedStep(size: nat, start: nat, log: seq<nat>, mid: seq<nat>, net: Net, n: nat)
    requires log <= mid && net.history == LastN(mid, size)
    requires net.expected.Some? && HighWater(start, mid[|log|..], net.expected.value)
    ensures var all := if n in LastN(mid, size) then mid else mid + [n];
            var end := Check(size, net, n).expected;
            log <= all && end.Some? && HighWater(start, all[|log|..], end.value)
  {
    if n !in LastN(mid, size) {
      assert (mid + [n])[|log|..] == mid[|log|..] + [n];
      HighWaterSnoc(start, mid[|log|..], net.expected.value, n);
    }
  }

  /** The number of the first check of a network. */
  function FirstCheck(calls: seq<Call>, slug: Slug): Option<nat> {
    if calls == [] then None
    else
      var before := FirstCheck(calls[..|calls| - 1], slug);
      var last := calls[|calls| - 1];
      if before.None? && last.slug == slug && last.CheckCall? then Some(last.n) else before
  }

  /** What `expected` was when the checks began: for a network never seen before, its first number. */
  function StartValue(net: Net, more: seq<Call>, slug: Slug): Option<nat> {
    if net.expected.Some? then net.expected else FirstCheck(more, slug)
  }

  lemma {:induction false} UnseenIsFresh(size: nat, calls: seq<Call>, slug: Slug)
    requires NetIn(RunAll(size, calls), slug).expected.None?
    ensures NetIn(RunAll(size, calls), slug).history == []
  {
    if calls != [] {
      var before, call := calls[..|calls| - 1], calls[|calls| - 1];
      assert calls == before + [call];
      RunAllSnoc(size, before, call);
      hide RunAll;
      UnseenIsFresh(size, before, slug);
    }
  }

  /** State of the expected number after checks only: unset if there was none, otherwise the start
      value raised to one more than the greatest number recorded since. */
  ghost predicate ExpectedFits(start: Option<nat>, log: seq<nat>, all: seq<nat>, end: Option<nat>) {
    && log <= all
    && (start.None? ==> end.None? && all == log)
    && (start.Some? ==> end.Some? && HighWater(start.value, all[|log|..], end.value))
  }

  /** Between resets the expected number is its start value raised to one more than the greatest number
      recorded since. For a network without an expected number the start value is the first number
      checked. */
  lemma {:induction false} ExpectedIsHighWater(size: nat, calls: seq<Call>, more: seq<Call>, slug: Slug)
    requires OnlyChecks(more, slug)
    ensures ExpectedFits(StartValue(NetIn(RunAll(size, calls), slug), more, slug), Log(size, calls, slug),
                         Log(size, calls + more, slug), NetIn(RunAll(size, calls + more), slug).expected)
  {
    if more == [] {
      assert calls + more == calls;
      NothingChecked(NetIn(RunAll(size, calls), slug), Log(size, calls, slug), slug);
    } else {
      hide *;
      var net, fewer, call := NetIn(RunAll(size, calls), slug), more[..|more| - 1], more[|more| - 1];
      OnlyChecksInit(more, slug);
      ExpectedIsHighWater(size, calls, fewer, slug);
      assert calls + more == (calls + fewer) + [call] && more == fewer + [call];
      StartValueSnoc(net, fewer, call, slug);
      ExpectedOneMore(size, StartValue(net, fewer, slug), Log(size, calls, slug), calls + fewer, call, slug);
    }
  }

  lemma NothingChecked(net: Net, log: seq<nat>, slug: Slug)
    ensures ExpectedFits(StartValue(net, [], slug), log, log, net.expected)
  {
    assert log[|log|..] == [];
  }

  lemma OnlyChecksInit(more: seq<Call>, slug: Slug)
    requires more != [] && OnlyChecks(more, slug)
    ensures OnlyChecks(more[..|more| - 1], slug)
    ensures more[|more| - 1].slug == slug ==> more[|more| - 1].CheckCall?
  {
  }

  lemma StartValueSnoc(net: Net, fewer: seq<Call>, call: Call, slug: Slug)
    requires call.slug == slug ==> call.CheckCall?
    ensures StartValue(net, fewer + [call], slug) ==
            if StartValue(net, fewer, slug).None? && call.slug == slug then Some(call.n)
            else StartValue(net, fewer, slug)
  {
    FirstCheckSnoc(fewer, call, slug);
    hide FirstCheck;
  }

  lemma ExpectedOneMore(size: nat, start: Option<nat>, log: seq<nat>, calls: seq<Call>, call: Call, slug: Slug)
    requires ExpectedFits(start, log, Log(size, calls, slug), NetIn(RunAll(size, calls), slug).expected)
    requires call.slug == slug ==> call.CheckCall?
    ensures ExpectedFits(if start.None? && call.slug == slug then Some(call.n) else start, log,
                         Log(size, calls + [call], slug), NetIn(RunAll(size, calls + [call]), slug).expected)
  {
    var net := NetIn(RunAll(size, calls), slug);
    RunAllSnoc(size, calls, call);
    LogSnoc(size, calls, call, slug);
    WindowIsLogTail(size, calls, slug);
    if net.expected.None? {
      UnseenIsFresh(size, calls, slug);
    }
    hide RunAll, Log, LastN, Check, HighWater, ExpectedFits;
    if call.slug == slug {
      ExpectedSnoc(size, start, log, Log(size, calls, slug), net, call.n);
    }
  }

  lemma FirstCheckSnoc(fewer: seq<Call>, call: Call, slug: Slug)
    ensures FirstCheck(fewer + [call], slug) ==
            if FirstCheck(fewer, slug).None? && call.slug == slug && call.CheckCall? then Some(call.n)
            else FirstCheck(fewer, slug)
  {
    assert (fewer + [call])[..|fewer|] == fewer;
  }

  lemma ExpectedSnoc(size: nat, start: Option<nat>, log: seq<nat>, mid: seq<nat>, net: Net, n: nat)
    requires ExpectedFits(start, log, mid, net.expected) && net.history == LastN(mid, size)
    requires net.expected.None? ==> net.history == []
    ensures ExpectedFits(if start.Some? then start else Some(n), log,
                         if n in LastN(mid, size) then mid else mid + [n], Check(size, net, n).expected)
  {
    if start.Some? {
      ExpectedStep(size, start.value, log, mid, net, n);
    } else {
      assert (mid + [n])[|log|..] == [n];
    }
  }

  // ---------------------------------------------------------------------------------------
  // What a check is answered, over whole call sequences.

  /** Where the last reset of a network is among the calls. */
  function LastReset(calls: seq<Call>, slug: Slug): (r: Option<nat>)
    ensures r.None? ==> OnlyChecks(calls, slug)
    ensures r.Some? ==> r.value < |calls| && calls[r.value].slug == slug && calls[r.value].ResetCall?
                        && OnlyChecks(calls[r.value + 1..], slug)
  {
    if calls == [] then None
    else
      var k := |calls| - 1;
      if calls[k].slug == slug && calls[k].ResetCall? then Some(k) else LastReset(calls[..k], slug)
  }

  function Lowered(expected: Option<nat>, start: nat): nat {
    if expected.Some? && expected.value < start then expected.value else start
  }

  /** `end` is the start value, if there is one, raised to one more than the greatest number recorded. */
  ghost predicate Raised(start: Option<nat>, recorded: seq<nat>, end: Option<nat>) {
    if start.None? then recorded == [] && end.None? else end.Some? && HighWater(start.value, recorded, end.value)
  }

  /** The number expected next: before any reset it starts as the first number checked, a reset lowers
      it to the start block, and since the last reset the numbers recorded have raised it. */
  ghost predicate ExpectedIs(size: nat, calls: seq<Call>, slug: Slug, end: Option<nat>)
    decreases |calls|
  {
    match LastReset(calls, slug)
    case None => Raised(FirstCheck(calls, slug), Log(size, calls, slug), end)
    case Some(k) =>
      exists before, since ::
        && ExpectedIs(size, calls[..k], slug, before)
        && Log(size, calls, slug) == Log(size, calls[..k], slug) + since
        && Raised(Some(Lowered(before, calls[k].start)), since, end)
  }

  lemma RaisedUnique(start: Option<nat>, recorded: seq<nat>, end: Option<nat>, other: Option<nat>)
    requires Raised(start, recorded, end) && Raised(start, recorded, other)
    ensures end == other
  {
  }

  lemma {:induction false} ExpectedUnique(size: nat, calls: seq<Call>, slug: Slug, end: Option<nat>, other: Option<nat>)
    requires ExpectedIs(size, calls, slug, end) && ExpectedIs(size, calls, slug, other)
    ensures end == other
    decreases |calls|
  {
    hide Raised, Log;
    match LastReset(calls, slug)
    case None => RaisedUnique(FirstCheck(calls, slug), Log(size, calls, slug), end, other);
    case Some(k) =>
      var b1, s1 :| && ExpectedIs(size, calls[..k], slug, b1)
                    && Log(size, calls, slug) == Log(size, calls[..k], slug) + s1
                    && Raised(Some(Lowered(b1, calls[k].start)), s1, end);
      var b2, s2 :| && ExpectedIs(size, calls[..k], slug, b2)
                    && Log(size, calls, slug) == Log(size, calls[..k], slug) + s2
                    && Raised(Some(Lowered(b2, calls[k].start)), s2, other);
      ExpectedUnique(size, calls[..k], slug, b1, b2);
      assert s1 == Log(size, calls, slug)[|Log(size, calls[..k], slug)|..] == s2;
      RaisedUnique(Some(Lowered(b1, calls[k].start)), s1, end, other);
  }

  lemma FitsIsRaised(start: Option<nat>, log: seq<nat>, all: seq<nat>, end: Option<nat>)
    requires ExpectedFits(start, log, all, end)
    ensures log <= all && all == log + all[|log|..] && Raised(start, all[|log|..], end)
  {
  }

  /** The tracker keeps the expected number. */
  lemma {:induction false} ExpectedIsKept(size: nat, calls: seq<Call>, slug: Slug)
    ensures ExpectedIs(size, calls, slug, NetIn(RunAll(size, calls), slug).expected)
    decreases |calls|
  {
    var log, end := Log(size, calls, slug), NetIn(RunAll(size, calls), slug).expected;
    hide RunAll, Log, Raised, HighWater, ExpectedFits;
    match LastReset(calls, slug)
    case None =>
      NothingYet(size, slug);
      assert [] + calls == calls;
      ExpectedIsHighWater(size, [], calls, slug);
      FitsIsRaised(FirstCheck(calls, slug), [], log, end);
      assert log[0..] == log;
    case Some(k) =>
      var past, more := calls[..k], calls[k + 1..];
      ExpectedIsKept(size, past, slug);
      assert calls == (past + [calls[k]]) + more;
      RunAllSnoc(size, past, calls[k]);
      LogSnoc(size, past, calls[k], slug);
      ExpectedIsHighWater(size, past + [calls[k]], more, slug);
      FitsIsRaised(Some(Lowered(NetIn(RunAll(size, past), slug).expected, calls[k].start)), Log(size, past, slug),
                   log, end);
  }

  lemma NothingYet(size: nat, slug: Slug)
    ensures NetIn(RunAll(size, []), slug) == FRESH && Log(size, [], slug) == []
  {
  }

  /** The answer to a check after any calls. A number among the last `size` ones of the log is a
      duplicate, reported with the last number of the log. Any other number is out of order exactly if
      it is below the expected number, and in order otherwise. */
  lemma VerdictIs(size: nat, calls: seq<Call>, slug: Slug, n: nat) returns (expected: Option<nat>)
    ensures ExpectedIs(size, calls, slug, expected)
    ensures var log := Log(size, calls, slug);
            Verdict(NetIn(RunAll(size, calls), slug), n) ==
            if Recent(log, size, n) then Duplicate(log[|log| - 1])
            else if expected.Some? && n < expected.value then OutOfOrder(expected.value, n)
            else InOrder
  {
    expected := NetIn(RunAll(size, calls), slug).expected;
    ExpectedIsKept(size, calls, slug);
    WindowIsLogTail(size, calls, slug);
    InTail(Log(size, calls, slug), size, n);
    hide RunAll, Log, LastN, ExpectedIs, Recent;
  }

  /** A reset never raises the expected number and never touches the window. */
  lemma ResetOnlyLowers(size: nat, calls: seq<Call>, slug: Slug, start: nat)
    ensures var net := NetIn(RunAll(size, calls), slug);
            var net' := NetIn(RunAll(size, calls + [ResetCall(slug, start)]), slug);
            && net'.history == net.history
            && net'.expected.Some?
            && net'.expected.value <= start
            && (net.expected.Some? ==> net'.expected.value <= net.expected.value)
            && (net.expected.Some? && net.expected.value <= start ==> net' == net)
  {
    RunAllSnoc(size, calls, ResetCall(slug, start));
  }
}
