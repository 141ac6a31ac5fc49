/** False alarms: what the tracker answers during a run. */
module Alarms {
  import opened Basics
  import opened Gaps
  import opened Protocol
  import opened Tracker
  import opened Watcher
  import opened Window
  import Buffer = ReorderBuffer
  import Refinement

  /** Numbers from start on are preceded by smaller numbers only. */
  ghost predicate AscendsFrom(start: nat, ns: seq<nat>) {
    forall i, j :: 0 <= i < j < |ns| && start <= ns[j] ==> ns[i] < ns[j]
  }

  /** When no number arrives twice, the trigger stage hands over the numbers of the window in order,
      whatever else arrives. */
  lemma WindowAscends(start: nat, arrivals: seq<Buffer.Processed>)
    requires Distinct(Buffer.NumbersOf(arrivals))
    ensures AscendsFrom(start, Buffer.NumbersOf(Buffer.Fire(start, arrivals)))
  {
    var k, rest := Buffer.RepeatedArrivals(start, arrivals);
    ElemsRange(start, k);
    forall n | n in rest ensures n < start || k <= n {
      assert n !in Elems(Range(start, k));
    }
    hide *;
    RunThenRest(start, k, rest);
  }

  lemma RunThenRest(start: nat, k: nat, rest: set<nat>)
    requires forall n :: n in rest ==> n < start || k <= n
    ensures AscendsFrom(start, Range(start, k) + Sorted(rest))
  {
    var run, tail := Range(start, k), Sorted(rest);
    assert forall i :: 0 <= i < |tail| ==> tail[i] in Elems(tail);
    hide Range, Sorted;
  }

  lemma {:induction false} ExpectedAtMost(size: nat, net: Net, ns: seq<nat>, bound: nat)
    requires net.expected.Some? && net.expected.value <= bound && forall n :: n in ns ==> n < bound
    ensures CheckAll(size, net, ns).expected.Some? && CheckAll(size, net, ns).expected.value <= bound
  {
    if ns != [] {
      var init, n := ns[..|ns| - 1], ns[|ns| - 1];
      assert forall k :: 0 <= k < |ns| ==> ns[k] in ns;
      forall m | m in init ensures m < bound {
        assert m in ns;
      }
      ExpectedAtMost(size, net, init, bound);
      assert n < bound;
      OneMoreAtMost(size, CheckAll(size, net, init), n, bound);
    }
  }

  lemma OneMoreAtMost(size: nat, net: Net, n: nat, bound: nat)
    requires net.expected.Some? && net.expected.value <= bound && n < bound
    ensures Check(size, net, n).expected.Some? && Check(size, net, n).expected.value <= bound
  {
  }

  lemma {:induction false} VerdictAt(size: nat, net: Net, ns: seq<nat>, i: nat)
    requires i < |ns|
    ensures |VerdictAll(size, net, ns)| == |ns|
    ensures VerdictAll(size, net, ns)[i] == Verdict(CheckAll(size, net, ns[..i]), ns[i])
  {
    var init := ns[..|ns| - 1];
    if i < |init| {
      VerdictAt(size, net, init, i);
      assert init[..i] == ns[..i];
    } else {
      VerdictCount(size, net, init);
    }
  }

  lemma {:induction false} VerdictCount(size: nat, net: Net, ns: seq<nat>)
    ensures |VerdictAll(size, net, ns)| == |ns|
  {
    if ns != [] {
      VerdictCount(size, net, ns[..|ns| - 1]);
    }
  }

  /** A block of the window is never reported out of order, whatever the tracker held before the run:
      that is what the reset is for. */
  lemma NoFalseAlarm(size: nat, network: Network, s: WatchState, env: WatchEnv, i: nat)
    requires network.window.Valid() && env.latest.Some? && i < |Run(size, network, s, env).fired|
    requires Fetched(network, s.cursor.GetOr(0), env).Some?
    requires Distinct(Buffer.NumbersOf(env.process(Fetched(network, s.cursor.GetOr(0), env).value)))
    ensures var run := Run(size, network, s, env);
            && |run.verdicts| == |run.fired|
            && (Start(network, s.cursor.GetOr(0), env) <= run.fired[i].number ==> !run.verdicts[i].OutOfOrder?)
  {
    var run, start := Run(size, network, s, env), Start(network, s.cursor.GetOr(0), env);
    var ns := Buffer.NumbersOf(run.fired);
    RunChecks(size, network, s, env);
    WindowAscends(start, env.process(Fetched(network, s.cursor.GetOr(0), env).value));
    VerdictAt(size, Reset(s.net, start), ns, i);
    hide Run, Buffer.Fire, CheckAll, VerdictAll, Fetched, Start;
    if start <= ns[i] {
      forall n | n in ns[..i] ensures n < ns[i] {
        var j :| 0 <= j < i && ns[j] == n;
      }
      ExpectedAtMost(size, Reset(s.net, start), ns[..i], ns[i]);
    }
  }

  lemma RunChecks(size: nat, network: Network, s: WatchState, env: WatchEnv)
    requires network.window.Valid() && env.latest.Some? && Run(size, network, s, env).fired != []
    requires Fetched(network, s.cursor.GetOr(0), env).Some?
    ensures var run, start := Run(size, network, s, env), Start(network, s.cursor.GetOr(0), env);
            && run.fired == Buffer.Fire(start, env.process(Fetched(network, s.cursor.GetOr(0), env).value))
            && run.verdicts == VerdictAll(size, Reset(s.net, start), Buffer.NumbersOf(run.fired))
  {
    hide Buffer.Fire, CheckAll, VerdictAll, DetectMissing, Reset;
  }

  /** The one false alarm: block 0 is handed over by the run from cursor 0 as the confirmed tip, below the
      first number of the window. It is reported out of order exactly if the tracker has not seen it and
      does not expect it. */
  lemma LoneAlarmIff(size: nat, network: Network, s: WatchState, env: WatchEnv)
    requires network.window.Valid() && AllComeBack(env) && env.cursorReads && env.latest.Some? && env.pipelineFeeds
    requires s.cursor.GetOr(0) == 0 && env.answer == Some([Some(Tip(network, env))])
    ensures var run := Run(size, network, s, env);
            && Buffer.NumbersOf(run.fired) == [Tip(network, env)]
            && |run.verdicts| == 1
            && (run.verdicts[0].OutOfOrder?
                <==> Tip(network, env) == 0 && 0 !in s.net.history && s.net.expected != Some(0))
  {
    var tip, start := Tip(network, env), Start(network, 0, env);
    var run, arrivals := Run(size, network, s, env), env.process([Some(tip)]);
    NoGapInOne(tip);
    assert multiset(Buffer.NumbersOf(arrivals)) == multiset(Handed([Some(tip)]));
    LoneArrival(arrivals, tip);
    Buffer.FiresLone(start, arrivals[0]);
    assert arrivals == [arrivals[0]];
    assert start == if tip == 0 then 1 else start;
    assert 1 <= tip ==> start <= tip;
    LoneRuns(size, network, s, env);
    hide Run, Buffer.Fire, Check, CheckAll, Start, Handed;
    assert [tip][..0] == [];
    assert VerdictAll(size, Reset(s.net, start), [tip]) == [Verdict(CheckAll(size, Reset(s.net, start), []), tip)];
    assert CheckAll(size, Reset(s.net, start), []) == Reset(s.net, start) by {
      NothingToCheck(size, Reset(s.net, start));
    }
  }

  lemma NothingToCheck(size: nat, net: Net)
    ensures CheckAll(size, net, []) == net
  {
  }

  lemma LoneArrival(arrivals: seq<Buffer.Processed>, tip: nat)
    requires multiset(Buffer.NumbersOf(arrivals)) == multiset(Handed([Some(tip)]))
    ensures |arrivals| == 1 && arrivals[0].number == tip
  {
    var ns := Buffer.NumbersOf(arrivals);
    assert Handed([Some(tip)]) == [tip];
    assert |ns| == |multiset(ns)| == 1;
    assert ns[0] in multiset([tip]);
  }

  lemma LoneRuns(size: nat, network: Network, s: WatchState, env: WatchEnv)
    requires network.window.Valid() && env.cursorReads && env.latest.Some?
    requires s.cursor.GetOr(0) == 0 && env.answer.Some? && DetectMissing(env.answer.value) == []
    ensures var run, start := Run(size, network, s, env), Start(network, 0, env);
            && run.fired == Buffer.Fire(start, env.process(env.answer.value))
            && run.verdicts == VerdictAll(size, Reset(s.net, start), Buffer.NumbersOf(run.fired))
  {
    hide Buffer.Fire, CheckAll, VerdictAll, DetectMissing, Reset;
  }

  // ---------------------------------------------------------------------------------------
  // After a crash.

  lemma NewIsNoDuplicate(size: nat, start: nat, ns: seq<nat>, i: nat)
    requires Distinct(ns) && i < |ns|
    ensures !Verdict(CheckAll(size, Reset(FRESH, start), ns[..i]), ns[i]).Duplicate?
  {
    var net, init := Reset(FRESH, start), ns[..i];
    assert net.history == [];
    assert Distinct(init);
    hide CheckAll;
    CheckNew(size, net, init);
    assert [] + init == init;
    assert ns[i] !in init;
    TailOf(init, size, ns[i]);
  }

  /** The tracker lives in memory. So after a crash it does not notice that a run hands blocks over again:
      a run of distinct numbers from its window on gets no verdict but InOrder, whatever was handed over
      before. Without the crash, a repeated run is reported as duplicates (`RepeatedVerdicts`). */
  lemma CrashForgets(p: Params, s: Sys, cursor: Option<nat>, env: WatchEnv)
    requires p.Valid() && s.cursor == cursor.GetOr(0)
    requires env.cursorReads && env.latest.Some? && Fetched(p.network, s.cursor, env).Some?
    requires var arrivals := env.process(Fetched(p.network, s.cursor, env).value);
             && Distinct(Buffer.NumbersOf(arrivals))
             && forall a :: a in arrivals ==> Start(p.network, s.cursor, env) <= a.number
    ensures var dead := Step(p, s, Crash);
            var run := Run(p.historySize, p.network, Refinement.StateOf(dead, cursor), env);
            var s' := Exec(p, dead, Refinement.WatchEvents(env, Fetched(p.network, s.cursor, env).value, run));
            && s.verdicts <= s'.verdicts && |s'.verdicts| == |s.verdicts| + |run.fired|
            && forall i :: |s.verdicts| <= i < |s'.verdicts| ==> s'.verdicts[i].InOrder?
  {
    var dead := Step(p, s, Crash);
    var state := Refinement.StateOf(dead, cursor);
    var run := Run(p.historySize, p.network, state, env);
    Refinement.WatchIsPath(p, dead, cursor, env);
    assert state.cursor == cursor && state.net == FRESH && dead.cursor == s.cursor;
    assert dead.verdicts == s.verdicts;
    hide Step, Exec, Run, Fetched, Start, Refinement.WatchEvents, Refinement.StateOf;
    if run.fired == [] {
      SilentRun(p.historySize, p.network, state, env);
    } else {
      FreshRun(p.historySize, p.network, state, env);
    }
  }

  lemma SilentRun(size: nat, network: Network, s: WatchState, env: WatchEnv)
    requires network.window.Valid() && Run(size, network, s, env).fired == []
    ensures Run(size, network, s, env).verdicts == []
  {
    hide Buffer.Fire, CheckAll, DetectMissing, Reset;
  }

  lemma FreshRun(size: nat, network: Network, s: WatchState, env: WatchEnv)
    requires network.window.Valid() && env.latest.Some? && s.net == FRESH && Run(size, network, s, env).fired != []
    requires Fetched(network, s.cursor.GetOr(0), env).Some?
    requires var arrivals := env.process(Fetched(network, s.cursor.GetOr(0), env).value);
             && Distinct(Buffer.NumbersOf(arrivals))
             && forall a :: a in arrivals ==> Start(network, s.cursor.GetOr(0), env) <= a.number
    ensures var run := Run(size, network, s, env);
            |run.verdicts| == |run.fired| && forall i :: 0 <= i < |run.verdicts| ==> run.verdicts[i].InOrder?
  {
    var run, start := Run(size, network, s, env), Start(network, s.cursor.GetOr(0), env);
    var arrivals := env.process(Fetched(network, s.cursor.GetOr(0), env).value);
    RunChecks(size, network, s, env);
    DistinctFired(start, arrivals);
    Buffer.FiredArrived(start, arrivals);
    NoFalseAlarm(size, network, s, env, 0);
    hide Run, Buffer.Fire, CheckAll, VerdictAll, Fetched, Start;
    forall i | 0 <= i < |run.verdicts| ensures run.verdicts[i].InOrder? {
      NoFalseAlarm(size, network, s, env, i);
      VerdictAt(size, Reset(s.net, start), Buffer.NumbersOf(run.fired), i);
      NewIsNoDuplicate(size, start, Buffer.NumbersOf(run.fired), i);
      assert run.fired[i] in run.fired;
    }
  }

  lemma DistinctFired(start: nat, arrivals: seq<Buffer.Processed>)
    requires Distinct(Buffer.NumbersOf(arrivals))
    requires forall a :: a in arrivals ==> start <= a.number
    ensures Distinct(Buffer.NumbersOf(Buffer.Fire(start, arrivals)))
  {
    Buffer.FiresSorted(start, arrivals);
  }
}
