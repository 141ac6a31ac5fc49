/** The two jobs as sequential code are paths of the state machine, so what is proved about all
    interleavings covers what the methods do. */
module Refinement {
  import opened Basics
  import opened Tracker
  import opened Gaps
  import opened Ledger
  import opened Watcher
  import opened Window
  import opened Protocol
  import Buffer = ReorderBuffer
  import Job = Recovery

  // ---------------------------------------------------------------------------------------
  // The recovery job.

  function AttemptEvents(tries: nat -> Job.Try, count: nat): seq<Event> {
    if count == 0 then []
    else
      var t := tries(count - 1);
      AttemptEvents(tries, count - 1) + [Mark(t.markLands), Fetch(t.answer), Settle(t.settleLands)]
  }

  function RecoveryEvents(p: Params, ledger: seq<Entry>, env: Job.Env): seq<Event>
    requires env.latest.Some?
  {
    var latest := env.latest.value;
    if !env.pruneLands then [BeginRecovery(latest, false)]
    else if !env.selectLands then [BeginRecovery(latest, true), SelectBatch(false)]
    else
      var batch := Job.BatchOf(ledger, p.recovery, p.network.window.confirmationBlocks, latest);
      [BeginRecovery(latest, true), SelectBatch(true)] + AttemptEvents(env.tries, |batch|)
        + [FinishRecovery(env.removeLands)]
  }

  /** One attempt in three steps. */
  lemma AttemptIsThreeSteps(p: Params, s: Sys, t: Job.Try)
    requires p.Valid() && s.job.Working? && s.job.todo != []
    ensures var e, rest, done := s.job.todo[0], s.job.todo[1..], s.job.done;
            Exec(p, s, [Mark(t.markLands), Fetch(t.answer), Settle(t.settleLands)])
            == s.(ledger := Job.Attempt(s.ledger, e, t, p.recovery.maxRetries),
                  attempted := s.attempted + [e.number],
                  redelivered := if t.answer.Found? then s.redelivered + [e.number] else s.redelivered,
                  job := Working(rest, if t.answer.Found? then done + [e.number] else done))
  {
    ExecThree(p, s, Mark(t.markLands), Fetch(t.answer), Settle(t.settleLands));
  }

  /** The machine after the first attempts of a batch. */
  function Attempted(p: Params, s: Sys, batch: seq<Entry>, tries: nat -> Job.Try, count: nat): Sys
    requires count <= |batch|
  {
    var done := Job.Attempts(s.ledger, batch[..count], tries, p.recovery.maxRetries);
    s.(ledger := done.ledger, attempted := s.attempted + Job.NumbersOf(batch)[..count],
       redelivered := s.redelivered + done.recovered, job := Working(batch[count..], done.recovered))
  }

  lemma {:induction false} AttemptsArePath(p: Params, s: Sys, batch: seq<Entry>, tries: nat -> Job.Try, count: nat)
    requires p.Valid() && s.job == Working(batch, []) && count <= |batch|
    ensures Exec(p, s, AttemptEvents(tries, count)) == Attempted(p, s, batch, tries, count)
  {
    if count > 0 {
      var k, t := count - 1, tries(count - 1);
      AttemptsArePath(p, s, batch, tries, k);
      var mid := Exec(p, s, AttemptEvents(tries, k));
      ExecConcat(p, s, AttemptEvents(tries, k), [Mark(t.markLands), Fetch(t.answer), Settle(t.settleLands)]);
      AttemptIsThreeSteps(p, mid, t);
      OneMoreAttempted(p, s, batch, tries, k);
      hide Step, Exec, Job.Attempt, Job.Attempts, Job.NumbersOf;
    }
  }

  lemma OneMoreAttempted(p: Params, s: Sys, batch: seq<Entry>, tries: nat -> Job.Try, k: nat)
    requires k < |batch|
    ensures var mid, t, e := Attempted(p, s, batch, tries, k), tries(k), batch[k];
            && mid.job.todo[0] == e && mid.job.todo[1..] == batch[k + 1..]
            && Attempted(p, s, batch, tries, k + 1)
               == mid.(ledger := Job.Attempt(mid.ledger, e, t, p.recovery.maxRetries),
                       attempted := mid.attempted + [e.number],
                       redelivered := if t.answer.Found? then mid.redelivered + [e.number] else mid.redelivered,
                       job := Working(batch[k + 1..],
                                      if t.answer.Found? then mid.job.done + [e.number] else mid.job.done))
  {
    Job.AttemptsSnoc(s.ledger, batch, k, tries, p.recovery.maxRetries);
    hide Job.Attempt, Job.Attempts;
    assert batch[k..][1..] == batch[k + 1..] && batch[k..][0] == batch[k];
    assert Job.NumbersOf(batch)[..k + 1] == Job.NumbersOf(batch)[..k] + [batch[k].number];
    hide Job.NumbersOf;
    Associative(s.attempted, Job.NumbersOf(batch)[..k], [batch[k].number]);
  }

  /** The numbers of the ledger that lie further below the newest block than confirmations and age allow. */
  function TooOld(p: Params, l: seq<Entry>, latest: nat): set<nat> {
    set n | n in Keys(l) && n + p.recovery.maxBlockAge + p.network.window.confirmationBlocks < latest
  }

  lemma PrunedNumbers(p: Params, l: seq<Entry>, latest: nat)
    ensures var least := Job.Least(p.recovery, p.network.window.confirmationBlocks, latest);
            Keys(l) - Keys(Prune(l, least)) == TooOld(p, l, latest)
  {
    var least := Job.Least(p.recovery, p.network.window.confirmationBlocks, latest);
    forall n | n in Keys(l) ensures n in Keys(Prune(l, least)) <==> least <= n {
      var e :| e in l && e.number == n;
      assert least <= n ==> e in Prune(l, least);
    }
  }

  /** A run of the recovery job is a path of the machine: same ledger, same attempts, same blocks
      handed over, in the same order, and the numbers it prunes are those that are too old. */
  lemma RecoveryIsPath(p: Params, s: Sys, env: Job.Env)
    requires p.Valid() && s.job == Idle && env.latest.Some?
    ensures var run := Job.RunRecovery(s.ledger, p.recovery, p.network.window.confirmationBlocks, env);
            var s' := Exec(p, s, RecoveryEvents(p, s.ledger, env));
            s' == s.(ledger := run.ledger, attempted := s.attempted + run.attempted,
                     redelivered := s.redelivered + run.fired,
                     pruned := s.pruned + if env.pruneLands then TooOld(p, s.ledger, env.latest.value) else {})
  {
    var latest := env.latest.value;
    if !env.pruneLands {
      ExecOne(p, s, BeginRecovery(latest, false));
    } else if !env.selectLands {
      PrunedNumbers(p, s.ledger, latest);
      ExecTwo(p, s, BeginRecovery(latest, true), SelectBatch(false));
    } else {
      FullRunIsPath(p, s, env);
    }
  }

  lemma FullRunIsPath(p: Params, s: Sys, env: Job.Env)
    requires p.Valid() && s.job == Idle && env.latest.Some? && env.pruneLands && env.selectLands
    ensures var run := Job.RunRecovery(s.ledger, p.recovery, p.network.window.confirmationBlocks, env);
            var s' := Exec(p, s, RecoveryEvents(p, s.ledger, env));
            s' == s.(ledger := run.ledger, attempted := s.attempted + run.attempted,
                     redelivered := s.redelivered + run.fired,
                     pruned := s.pruned + if env.pruneLands then TooOld(p, s.ledger, env.latest.value) else {})
  {
    var latest := env.latest.value;
    var batch := Job.BatchOf(s.ledger, p.recovery, p.network.window.confirmationBlocks, latest);
    var two := [BeginRecovery(latest, true), SelectBatch(true)];
    var tries, last := AttemptEvents(env.tries, |batch|), [FinishRecovery(env.removeLands)];
    var working := Exec(p, s, two);
    SelectionIsPath(p, s, latest);
    EventsAre(p, s.ledger, env);
    RunIs(s.ledger, p.recovery, p.network.window.confirmationBlocks, env);
    assert working.ledger == Prune(s.ledger, Job.Least(p.recovery, p.network.window.confirmationBlocks, latest));
    hide *;
    AllAttemptsArePath(p, working, batch, env.tries);
    var tried := Exec(p, working, tries);
    FinishIsPath(p, tried, env.removeLands);
    ExecConcat(p, working, tries, last);
    ExecConcat(p, s, two, tries + last);
  }

  lemma EventsAre(p: Params, ledger: seq<Entry>, env: Job.Env)
    requires env.latest.Some? && env.pruneLands && env.selectLands
    ensures var batch := Job.BatchOf(ledger, p.recovery, p.network.window.confirmationBlocks, env.latest.value);
            RecoveryEvents(p, ledger, env)
            == [BeginRecovery(env.latest.value, true), SelectBatch(true)]
               + (AttemptEvents(env.tries, |batch|) + [FinishRecovery(env.removeLands)])
  {
    hide Job.BatchOf, AttemptEvents;
  }

  lemma RunIs(l: seq<Entry>, cfg: Job.Config, confirmations: nat, env: Job.Env)
    requires env.latest.Some? && env.pruneLands && env.selectLands
    ensures var kept := Prune(l, Job.Least(cfg, confirmations, env.latest.value));
            var batch := Job.BatchOf(l, cfg, confirmations, env.latest.value);
            var done := Job.Attempts(kept, batch, env.tries, cfg.maxRetries);
            var run := Job.RunRecovery(l, cfg, confirmations, env);
            && run.ledger == (if env.removeLands then Remove(done.ledger, Elems(done.recovered)) else done.ledger)
            && run.attempted == Job.NumbersOf(batch) && run.fired == done.recovered
  {
    hide Job.Attempts, Job.Batch, Prune, Remove;
  }

  lemma AllAttemptsArePath(p: Params, s: Sys, batch: seq<Entry>, tries: nat -> Job.Try)
    requires p.Valid() && s.job == Working(batch, [])
    ensures var done := Job.Attempts(s.ledger, batch, tries, p.recovery.maxRetries);
            Exec(p, s, AttemptEvents(tries, |batch|))
            == s.(ledger := done.ledger,
                  attempted := s.attempted + Job.NumbersOf(batch),
                  redelivered := s.redelivered + done.recovered,
                  job := Working([], done.recovered))
  {
    AttemptsArePath(p, s, batch, tries, |batch|);
    hide Exec, Job.Attempts, AttemptEvents;
    assert batch[..|batch|] == batch && batch[|batch|..] == [];
    assert Job.NumbersOf(batch)[..|batch|] == Job.NumbersOf(batch);
  }

  lemma FinishIsPath(p: Params, s: Sys, lands: bool)
    requires p.Valid() && s.job.Working? && s.job.todo == []
    ensures Exec(p, s, [FinishRecovery(lands)])
         == s.(ledger := if lands then Remove(s.ledger, Elems(s.job.done)) else s.ledger, job := Idle)
  {
    ExecOne(p, s, FinishRecovery(lands));
  }

  lemma SelectionIsPath(p: Params, s: Sys, latest: nat)
    requires p.Valid() && s.job == Idle
    ensures var s' := Exec(p, s, [BeginRecovery(latest, true), SelectBatch(true)]);
            s' == s.(ledger := Prune(s.ledger, Job.Least(p.recovery, p.network.window.confirmationBlocks, latest)),
                     pruned := s.pruned + TooOld(p, s.ledger, latest),
                     job := Working(Job.BatchOf(s.ledger, p.recovery, p.network.window.confirmationBlocks, latest), []))
  {
    PrunedNumbers(p, s.ledger, latest);
    ExecTwo(p, s, BeginRecovery(latest, true), SelectBatch(true));
  }

  // ---------------------------------------------------------------------------------------
  // The watcher job.

  function FireEvents(count: nat): seq<Event> {
    if count == 0 then [] else FireEvents(count - 1) + [FireNext]
  }

  lemma FireOnce(p: Params, s: Sys)
    requires p.Valid() && s.watch.Firing? && s.watch.queue != []
    ensures var n := s.watch.queue[0];
            Step(p, s, FireNext)
            == s.(watch := s.watch.(queue := s.watch.queue[1..]), net := Check(p.historySize, s.net, n),
                  fired := s.fired + [n], verdicts := s.verdicts + [Verdict(s.net, n)])
  {
    hide Check, Verdict;
  }

  lemma {:induction false} FiringIsPath(p: Params, s: Sys, queue: seq<nat>, count: nat)
    requires p.Valid() && s.watch.Firing? && s.watch.queue == queue && count <= |queue|
    ensures Exec(p, s, FireEvents(count))
            == s.(watch := s.watch.(queue := queue[count..]),
                  net := CheckAll(p.historySize, s.net, queue[..count]),
                  fired := s.fired + queue[..count],
                  verdicts := s.verdicts + VerdictAll(p.historySize, s.net, queue[..count]))
  {
    if count > 0 {
      var k := count - 1;
      FiringIsPath(p, s, queue, k);
      var mid := Exec(p, s, FireEvents(k));
      ExecConcat(p, s, FireEvents(k), [FireNext]);
      ExecOne(p, mid, FireNext);
      hide Step, Exec, CheckAll, VerdictAll;
      FiringStep(p, s, queue, k, mid);
    } else {
      assert queue[count..] == queue && queue[..count] == [] && FireEvents(0) == [];
    }
  }

  lemma FiringStep(p: Params, s: Sys, queue: seq<nat>, k: nat, mid: Sys)
    requires p.Valid() && s.watch.Firing? && k < |queue|
    requires mid == s.(watch := s.watch.(queue := queue[k..]),
                       net := CheckAll(p.historySize, s.net, queue[..k]),
                       fired := s.fired + queue[..k],
                       verdicts := s.verdicts + VerdictAll(p.historySize, s.net, queue[..k]))
    ensures Step(p, mid, FireNext)
            == s.(watch := s.watch.(queue := queue[k + 1..]),
                  net := CheckAll(p.historySize, s.net, queue[..k + 1]),
                  fired := s.fired + queue[..k + 1],
                  verdicts := s.verdicts + VerdictAll(p.historySize, s.net, queue[..k + 1]))
  {
    FireOnce(p, mid);
    hide *;
    var n := queue[k];
    assert queue[..k + 1] == queue[..k] + [n];
    assert queue[k..][1..] == queue[k + 1..] && queue[k..][0] == n;
    Buffer.CheckAllSnoc(p.historySize, s.net, queue[..k], n);
    Associative(s.fired, queue[..k], [n]);
    Associative(s.verdicts, VerdictAll(p.historySize, s.net, queue[..k]), [Verdict(mid.net, n)]);
  }

  function WatchEvents(env: WatchEnv, fetched: seq<Block>, run: WatchRun): seq<Event>
    requires env.latest.Some?
  {
    [BeginWatch(env.latest.value, env.answer.GetOr([]), env.process(fetched), env.gapsLand)]
    + FireEvents(|run.fired|) + [CommitCursor(run.ok)]
  }

  function StateOf(s: Sys, cursor: Option<nat>): WatchState {
    WatchState(cursor, s.ledger, s.net)
  }

  /** A run of the watcher job that gets its blocks is a path of the machine: same cursor, same
      ledger, same tracker state, same blocks handed over, same verdicts. Numbers below its window count
      as skipped when the cursor passes them. */
  lemma WatchIsPath(p: Params, s: Sys, cursor: Option<nat>, env: WatchEnv)
    requires p.Valid() && s.watch == Resting && s.cursor == cursor.GetOr(0)
    requires env.cursorReads && env.latest.Some? && Fetched(p.network, s.cursor, env).Some?
    ensures var run := Watcher.Run(p.historySize, p.network, StateOf(s, cursor), env);
            var s' := Exec(p, s, WatchEvents(env, Fetched(p.network, s.cursor, env).value, run));
            && s' == s.(cursor := run.state.cursor.GetOr(0), ledger := run.state.ledger, net := run.state.net,
                        fired := s.fired + Buffer.NumbersOf(run.fired), verdicts := s.verdicts + run.verdicts,
                        skipped := s.skipped +
                          if run.ok then Skipped(s.cursor, Start(p.network, s.cursor, env)) else {})
  {
    var blocks := Fetched(p.network, s.cursor, env).value;
    var run := Watcher.Run(p.historySize, p.network, StateOf(s, cursor), env);
    var begin := BeginWatch(env.latest.value, env.answer.GetOr([]), env.process(blocks), env.gapsLand);
    var s1, last := Step(p, s, begin), [CommitCursor(run.ok)];
    BeginIsPath(p, s, cursor, env, blocks);
    EventsOf(env, blocks, run);
    hide Exec, Step, Watcher.Run, Buffer.Fire, CheckAll, VerdictAll, WatchEvents, FireEvents, Reset, Skipped, Start;
    ExecOne(p, s, begin);
    ExecConcat(p, s, [begin], FireEvents(|run.fired|) + last);
    if s1.watch.Firing? {
      FireAndCommit(p, s1, Buffer.NumbersOf(run.fired), run.ok);
    } else {
      NothingToFire(p, s1, run.ok);
      assert s.fired + Buffer.NumbersOf([]) == s.fired && s.verdicts + [] == s.verdicts;
    }
  }

  lemma EventsOf(env: WatchEnv, fetched: seq<Block>, run: WatchRun)
    requires env.latest.Some?
    ensures var begin := BeginWatch(env.latest.value, env.answer.GetOr([]), env.process(fetched), env.gapsLand);
            WatchEvents(env, fetched, run) == [begin] + (FireEvents(|run.fired|) + [CommitCursor(run.ok)])
  {
    hide FireEvents;
  }

  lemma FireAndCommit(p: Params, s: Sys, queue: seq<nat>, ok: bool)
    requires p.Valid() && s.watch.Firing? && s.watch.queue == queue
    ensures var s' := Exec(p, s, FireEvents(|queue|) + [CommitCursor(ok)]);
            s' == s.(watch := Resting, cursor := if ok then s.watch.tip else s.cursor,
                     net := CheckAll(p.historySize, s.net, queue), fired := s.fired + queue,
                     verdicts := s.verdicts + VerdictAll(p.historySize, s.net, queue),
                     skipped := s.skipped + if ok then Skipped(s.cursor, s.watch.start) else {})
  {
    var fired := AllFired(p, s, queue);
    AllFiredIs(p, s, queue);
    ExecConcat(p, s, FireEvents(|queue|), [CommitCursor(ok)]);
    ExecOne(p, fired, CommitCursor(ok));
    CommitIs(p, fired, ok);
    hide Exec, Step, CheckAll, VerdictAll, FireEvents;
  }

  /** The machine after its queue was fired, before the cursor is written. */
  function AllFired(p: Params, s: Sys, queue: seq<nat>): Sys
    requires s.watch.Firing?
  {
    s.(watch := s.watch.(queue := []), net := CheckAll(p.historySize, s.net, queue), fired := s.fired + queue,
       verdicts := s.verdicts + VerdictAll(p.historySize, s.net, queue))
  }

  lemma AllFiredIs(p: Params, s: Sys, queue: seq<nat>)
    requires p.Valid() && s.watch.Firing? && s.watch.queue == queue
    ensures Exec(p, s, FireEvents(|queue|)) == AllFired(p, s, queue)
  {
    FiringIsPath(p, s, queue, |queue|);
    hide Exec, CheckAll, VerdictAll, FireEvents;
    assert queue[..|queue|] == queue && queue[|queue|..] == [];
  }

  lemma CommitIs(p: Params, s: Sys, ok: bool)
    requires p.Valid() && s.watch.Firing? && s.watch.queue == []
    ensures var s' := Step(p, s, CommitCursor(ok));
            s' == s.(watch := Resting, cursor := if ok then s.watch.tip else s.cursor,
                     skipped := s.skipped + if ok then Skipped(s.cursor, s.watch.start) else {})
  {
  }

  lemma NothingToFire(p: Params, s: Sys, ok: bool)
    requires p.Valid() && s.watch.Resting?
    ensures Exec(p, s, FireEvents(0) + [CommitCursor(ok)]) == s
  {
    assert FireEvents(0) + [CommitCursor(ok)] == [CommitCursor(ok)];
    ExecOne(p, s, CommitCursor(ok));
    hide Exec;
  }

  lemma BeginIsPath(p: Params, s: Sys, cursor: Option<nat>, env: WatchEnv, blocks: seq<Block>)
    requires p.Valid() && s.watch == Resting && s.cursor == cursor.GetOr(0)
    requires env.cursorReads && env.latest.Some? && Fetched(p.network, s.cursor, env) == Some(blocks)
    ensures var run := Watcher.Run(p.historySize, p.network, StateOf(s, cursor), env);
            var begin := BeginWatch(env.latest.value, env.answer.GetOr([]), env.process(blocks), env.gapsLand);
            var s1 := Step(p, s, begin);
            var start, tip := Start(p.network, s.cursor, env), Tip(p.network, env);
            && s1.ledger == run.state.ledger
            && s1 == s.(ledger := s1.ledger, net := Reset(s.net, start), watch := s1.watch)
            && (s1.watch == Resting ==>
                !run.ok && run.fired == [] && run.verdicts == [] && run.state == StateOf(s1, cursor))
            && (s1.watch != Resting ==>
                  && s1.watch == Firing(start, tip, Buffer.NumbersOf(run.fired))
                  && run.state.cursor == (if run.ok then Some(tip) else cursor)
                  && run.state.net == CheckAll(p.historySize, s1.net, Buffer.NumbersOf(run.fired))
                  && run.verdicts == VerdictAll(p.historySize, s1.net, Buffer.NumbersOf(run.fired)))
  {
    hide Buffer.Fire, CheckAll, VerdictAll, DetectMissing, AddMissing, Reset;
    var begin := BeginWatch(env.latest.value, env.answer.GetOr([]), env.process(blocks), env.gapsLand);
    assert FetchedBy(p, s, begin) == blocks;
  }
}
