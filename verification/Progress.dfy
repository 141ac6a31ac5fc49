/** Progress of the recovery job over all interleavings with the watcher job, with crashes at any
    moment, as long as status writes land: bounded work and no starvation. */
module Progress {
  import opened Basics
  import opened Ledger
  import opened LedgerStatus
  import Gaps
  import opened Protocol
  import opened RecoveryProgress
  import Job = Recovery

  ghost predicate StatusLands(ev: Event) {
    ev.Mark? || ev.Settle? ==> ev.lands
  }

  ghost predicate CanRetry(e: Entry, maxRetries: nat) {
    e.status == Pending && e.retries < maxRetries
  }

  /** Selected entries are still in the ledger as selected, and the entry in flight is marked there. */
  ghost predicate Held(s: Sys, maxRetries: nat) {
    && UniqueKeys(s.ledger) && UniqueKeys(s.job.Todo())
    && (forall e :: e in s.job.Todo() ==> e in s.ledger && CanRetry(e, maxRetries))
    && (InFlight(s.job) ==>
          && CanRetry(s.job.entry, maxRetries) && s.job.entry.(status := Recovering) in s.ledger
          && forall e :: e in s.job.todo ==> e.number != s.job.entry.number)
  }

  predicate Below(n: nat, limit: Option<nat>) {
    limit.Some? ==> n < limit.value
  }

  /** Retries the entry in flight gets back if the node does not deliver it. */
  function Owed(s: Sys, maxRetries: nat, limit: Option<nat>): nat {
    if (s.job.Marked? || s.job.Refused?) && Below(s.job.entry.number, limit) && s.job.entry.retries < maxRetries
    then maxRetries - s.job.entry.retries - 1 else 0
  }

  /** The retries left to entries below the limit, in the ledger and in flight. */
  function Left(s: Sys, maxRetries: nat, limit: Option<nat>): nat {
    Sum(s.ledger, Budget(maxRetries, limit)) + Owed(s, maxRetries, limit)
  }

  /** Number of entries a step adds to the ledger. */
  function Added(p: Params, s: Sys, ev: Event): nat
    requires p.Valid()
  {
    if |s.ledger| <= |Step(p, s, ev).ledger| then |Step(p, s, ev).ledger| - |s.ledger| else 0
  }

  /** Whether a step asks for a block below the limit. */
  function Asks(s: Sys, ev: Event, limit: Option<nat>): nat {
    if ev.Mark? && s.job.Working? && s.job.todo != [] && Below(s.job.todo[0].number, limit) then 1 else 0
  }

  /** New entries lie at or above the limit. */
  ghost predicate NothingOlder(p: Params, s: Sys, ev: Event, limit: Option<nat>)
    requires p.Valid()
  {
    limit.Some? && forall e :: e in Step(p, s, ev).ledger ==> e.number in Keys(s.ledger) || limit.value <= e.number
  }

  lemma GapsCost(p: Params, s: Sys, ev: Event, limit: Option<nat>)
    requires p.Valid() && ev.BeginWatch? && Held(s, p.recovery.maxRetries)
    ensures var s', max := Step(p, s, ev), p.recovery.maxRetries;
            && Held(s', max)
            && Left(s', max, limit) <= Left(s, max, limit) + Added(p, s, ev) * max
            && (NothingOlder(p, s, ev, limit) ==> Left(s', max, limit) == Left(s, max, limit))
  {
    hide Step, Held, Left, Keys, Sum, UniqueKeys;
    var s' := Step(p, s, ev);
    WatchAddsFresh(p, s, ev);
    assert NothingOlder(p, s, ev, limit) ==> limit.Some? && forall e :: e in s'.ledger[|s.ledger|..] ==>
      limit.value <= e.number;
    GrownLeft(s, s', p.recovery.maxRetries, limit);
  }

  lemma GrownLeft(s: Sys, s': Sys, maxRetries: nat, limit: Option<nat>)
    requires s.ledger <= s'.ledger && s'.job == s.job
    ensures Left(s', maxRetries, limit) <= Left(s, maxRetries, limit) + (|s'.ledger| - |s.ledger|) * maxRetries
    ensures limit.Some? && (forall e :: e in s'.ledger[|s.ledger|..] ==> limit.value <= e.number) ==>
              Left(s', maxRetries, limit) == Left(s, maxRetries, limit)
  {
    hide Sum, Budget;
    assert s'.ledger == s.ledger + s'.ledger[|s.ledger|..];
    GrownCost(s.ledger, s'.ledger[|s.ledger|..], maxRetries, limit);
  }

  lemma GrownCost(l: seq<Entry>, more: seq<Entry>, maxRetries: nat, limit: Option<nat>)
    ensures var w := Budget(maxRetries, limit);
            && Sum(l + more, w) <= Sum(l, w) + |more| * maxRetries
            && (limit.Some? && (forall e :: e in more ==> limit.value <= e.number) ==> Sum(l + more, w) == Sum(l, w))
  {
    hide Sum;
    SumConcat(l, more, Budget(maxRetries, limit));
    SumBounded(more, maxRetries, limit);
  }

  lemma WatchAddsFresh(p: Params, s: Sys, ev: Event)
    requires p.Valid() && ev.BeginWatch? && Held(s, p.recovery.maxRetries)
    ensures var s' := Step(p, s, ev);
            && s.ledger <= s'.ledger && s'.job == s.job && s'.attempted == s.attempted
              && Held(s', p.recovery.maxRetries)
            && forall e :: e in s'.ledger[|s.ledger|..] ==> e.number !in Keys(s.ledger)
  {
    var gaps := Gaps.DetectMissing(FetchedBy(p, s, ev));
    SavingGapsKeepsUnique(s.ledger, FetchedBy(p, s, ev));
    AddMissingKeeps(s.ledger, gaps);
    FreshMembers(Keys(s.ledger), gaps);
    hide Gaps.DetectMissing, UniqueKeys, Keys, Fresh;
    assert AddMissing(s.ledger, gaps)[|s.ledger|..] == Fresh(Keys(s.ledger), gaps);
    assert s.ledger[|s.ledger|..] == [];
  }

  lemma MarkCost(p: Params, s: Sys, limit: Option<nat>)
    requires p.Valid() && Held(s, p.recovery.maxRetries) && s.job.Working? && s.job.todo != []
    ensures var s', max := Step(p, s, Mark(true)), p.recovery.maxRetries;
            && Held(s', max)
            && Left(s', max, limit) + Asks(s, Mark(true), limit) == Left(s, max, limit)
            && (forall e :: e in s.ledger && e.number != s.job.todo[0].number ==> e in s'.ledger)
  {
    var x, rest := s.job.todo[0], s.job.todo[1..];
    var s' := Step(p, s, Mark(true));
    assert s.job.Todo() == [x] + rest && x in s.job.Todo();
    assert s'.ledger == SetStatus(s.ledger, x.number, Recovering) && s'.job == Marked(x, rest, s.job.done);
    assert Updated(x, Recovering) == x.(status := Recovering);
    SetStatusEffect(s.ledger, x, Recovering);
    SumSetStatus(s.ledger, x, Recovering, Budget(p.recovery.maxRetries, limit));
    hide SetStatus, Sum, Step;
    assert Left(s', p.recovery.maxRetries, limit) + Asks(s, Mark(true), limit)
      == Left(s, p.recovery.maxRetries, limit) by {
      hide UniqueKeys;
    }
    hide Left, Asks;
    MarkHolds(s, s', x, rest, p.recovery.maxRetries);
  }

  lemma MarkHolds(s: Sys, s': Sys, x: Entry, rest: seq<Entry>, maxRetries: nat)
    requires Held(s, maxRetries) && s.job.Working? && s.job.todo == [x] + rest
    requires s'.job == Marked(x, rest, s.job.done) && UniqueKeys(s'.ledger)
    requires forall e :: e in s'.ledger <==> (e in s.ledger && e.number != x.number) || e == x.(status := Recovering)
    ensures Held(s', maxRetries)
  {
    TailUnique(x, rest);
    hide UniqueKeys;
    assert x in s.job.Todo();
    assert forall e :: e in rest ==> e in s.job.Todo();
  }

  lemma TailUnique(x: Entry, rest: seq<Entry>)
    requires UniqueKeys([x] + rest)
    ensures UniqueKeys(rest) && forall e :: e in rest ==> e.number != x.number
  {
    var all := [x] + rest;
    forall i, j | 0 <= i < j < |rest| ensures rest[i].number != rest[j].number {
      assert all[i + 1].number != all[j + 1].number;
    }
    forall e | e in rest ensures e.number != x.number {
      var i :| 0 <= i < |rest| && rest[i] == e;
      assert all[0].number != all[i + 1].number;
    }
  }

  lemma SettleCost(p: Params, s: Sys, limit: Option<nat>)
    requires p.Valid() && Held(s, p.recovery.maxRetries) && (s.job.Delivered? || s.job.Refused?)
    ensures var s', max := SettleStep(p, s, true), p.recovery.maxRetries;
            && Held(s', max)
            && Left(s', max, limit) == Left(s, max, limit)
            && (forall e :: e in s.ledger && e.number != s.job.entry.number ==> e in s'.ledger)
  {
    var x := s.job.entry.(status := Recovering);
    var status := if s.job.Delivered? then Recovered else Job.AfterFailure(s.job.entry, p.recovery.maxRetries);
    var s' := SettleStep(p, s, true);
    assert s'.ledger == SetStatus(s.ledger, x.number, status) && s'.job.Working? && s'.job.todo == s.job.todo;
    SetStatusEffect(s.ledger, x, status);
    assert Held(s', p.recovery.maxRetries) by {
      hide SetStatus, UniqueKeys, SettleStep, Updated;
      assert s'.job.Todo() == s.job.Todo() && !InFlight(s'.job);
    }
    hide SetStatus, SettleStep, Held, UniqueKeys;
    SettleLeft(s, s', x, status, p.recovery.maxRetries, limit);
  }

  lemma SettleLeft(s: Sys, s': Sys, x: Entry, status: Status, maxRetries: nat, limit: Option<nat>)
    requires Held(s, maxRetries) && (s.job.Delivered? || s.job.Refused?) && x == s.job.entry.(status := Recovering)
    requires status == if s.job.Delivered? then Recovered else Job.AfterFailure(s.job.entry, maxRetries)
    requires s'.ledger == SetStatus(s.ledger, x.number, status) && s'.job.Working?
    ensures Left(s', maxRetries, limit) == Left(s, maxRetries, limit)
  {
    SumSetStatus(s.ledger, x, status, Budget(maxRetries, limit));
    hide SetStatus, Sum, UniqueKeys;
  }

  lemma SelectHolds(p: Params, s: Sys, lands: bool)
    requires p.Valid() && Held(s, p.recovery.maxRetries)
    ensures Held(Step(p, s, SelectBatch(lands)), p.recovery.maxRetries)
  {
    if s.job.Selecting? {
      assert UniqueKeys(s.ledger);
      hide Job.Batch, UniqueKeys, Held;
      BatchRetryable(s.ledger, p.recovery, s.job.confirmed);
      SelectedHolds(s, Job.Batch(s.ledger, p.recovery, s.job.confirmed), p.recovery.maxRetries);
    }
  }

  lemma BatchRetryable(l: seq<Entry>, cfg: Job.Config, confirmed: nat)
    requires UniqueKeys(l)
    ensures UniqueKeys(Job.Batch(l, cfg, confirmed))
    ensures forall e :: e in Job.Batch(l, cfg, confirmed) ==> e in l && CanRetry(e, cfg.maxRetries)
  {
    Job.BatchIsOldest(l, cfg, confirmed);
    Job.UniqueNumbers(Job.Batch(l, cfg, confirmed));
    hide Job.Batch, Job.NumbersOf;
  }

  lemma NoneUnique()
    ensures UniqueKeys([])
  {
  }

  lemma SelectedHolds(s: Sys, batch: seq<Entry>, maxRetries: nat)
    requires Held(s, maxRetries) && UniqueKeys(batch)
    requires forall e :: e in batch ==> e in s.ledger && CanRetry(e, maxRetries)
    ensures Held(s.(job := Working(batch, [])), maxRetries) && Held(s.(job := Idle), maxRetries)
  {
    assert UniqueKeys([]);
    hide UniqueKeys;
  }

  lemma DropCost(s: Sys, s': Sys, keep: Entry -> bool, maxRetries: nat, limit: Option<nat>)
    requires Held(s, maxRetries) && s'.ledger == Select(s.ledger, keep)
    requires s.job.Todo() == [] && s'.job.Todo() == [] && !InFlight(s.job) && !InFlight(s'.job)
    ensures Held(s', maxRetries) && Left(s', maxRetries, limit) <= Left(s, maxRetries, limit)
  {
    SelectUnique(s.ledger, keep);
    SumSelect(s.ledger, keep, Budget(maxRetries, limit));
    hide Sum, Budget;
  }

  /** No step but saving gaps raises what is left, and each request takes one off. */
  lemma StepCost(p: Params, s: Sys, ev: Event, limit: Option<nat>)
    requires p.Valid() && Held(s, p.recovery.maxRetries) && StatusLands(ev)
    ensures var s', max := Step(p, s, ev), p.recovery.maxRetries;
            && Held(s', max)
            && Left(s', max, limit) + Asks(s, ev, limit) <= Left(s, max, limit)
              + (if ev.BeginWatch? then Added(p, s, ev) * max else 0)
            && (ev.BeginWatch? && NothingOlder(p, s, ev, limit) ==> Left(s', max, limit) == Left(s, max, limit))
  {
    NoneUnique();
    hide Sum, Budget, UniqueKeys, Keys, SetStatus, Job.Batch, Select, BeginWatchStep;
    match ev
    case BeginWatch(_, _, _, _) => GapsCost(p, s, ev, limit);
    case BeginRecovery(latest, lands) =>
      if s.job.Idle? && lands {
        DropCost(s, Step(p, s, ev), NotOlder(SatSub(p.network.window.Confirmed(latest), p.recovery.maxBlockAge)),
                 p.recovery.maxRetries, limit);
      }
    case SelectBatch(lands) => SelectHolds(p, s, lands);
    case Mark(_) => if s.job.Working? && s.job.todo != [] { MarkCost(p, s, limit); }
    case Settle(_) => if s.job.Delivered? || s.job.Refused? { SettleCost(p, s, limit); }
    case FinishRecovery(lands) =>
      if s.job.Working? && s.job.todo == [] && lands {
        DropCost(s, Step(p, s, ev), NotIn(Elems(s.job.done)), p.recovery.maxRetries, limit);
      }
    case _ =>
      hide Sum, UniqueKeys;
  }

  // ---------------------------------------------------------------------------------------
  // Bounded work.

  /** Entries added to the ledger along a run. */
  function AddedAlong(p: Params, s: Sys, evs: seq<Event>): nat
    requires p.Valid()
    decreases |evs|
  {
    if evs == [] then 0
    else (if evs[0].BeginWatch? then Added(p, s, evs[0]) else 0) + AddedAlong(p, Step(p, s, evs[0]), evs[1..])
  }

  lemma AttemptedStep(p: Params, s: Sys, ev: Event)
    requires p.Valid()
    ensures |Step(p, s, ev).attempted| == |s.attempted| + Asks(s, ev, None)
    ensures s.attempted <= Step(p, s, ev).attempted
    ensures Asks(s, ev, None) == 1 ==> Step(p, s, ev).attempted == s.attempted + [s.job.todo[0].number]
  {
  }

  lemma AddUp(a: nat, b: nat, c: nat, m: nat)
    requires c == a + b
    ensures c * m == a * m + b * m
  {
  }

  lemma {:induction false} WorkAlong(p: Params, s: Sys, evs: seq<Event>)
    requires p.Valid() && Held(s, p.recovery.maxRetries) && forall ev :: ev in evs ==> StatusLands(ev)
    ensures var s', max := Exec(p, s, evs), p.recovery.maxRetries;
            && Held(s', max)
            && |s'.attempted| + Left(s', max, None) <= |s.attempted| + Left(s, max, None) + AddedAlong(p, s, evs) * max
    decreases |evs|
  {
    if evs != [] {
      var ev, s1 := evs[0], Step(p, s, evs[0]);
      assert ev in evs;
      StepCost(p, s, ev, None);
      AttemptedStep(p, s, ev);
      WorkAlong(p, s1, evs[1..]);
      AddUp(if ev.BeginWatch? then Added(p, s, ev) else 0, AddedAlong(p, s1, evs[1..]), AddedAlong(p, s, evs),
        p.recovery.maxRetries);
      hide Step, Left, Held, Added, Asks;
    }
  }

  /** Termination measure, over every interleaving of the two jobs and any crashes: the requests made and
      the retries left never exceed the retries left at the beginning, plus maxRetries for every entry
      added. Without new gaps all future work is bounded by the first. */
  lemma WorkIsBounded(p: Params, cursor: nat, ledger: seq<Entry>, evs: seq<Event>)
    requires p.Valid() && UniqueKeys(ledger) && forall ev :: ev in evs ==> StatusLands(ev)
    ensures var s, w := Exec(p, Initial(cursor, ledger), evs), Budget(p.recovery.maxRetries, None);
            |s.attempted| + Sum(s.ledger, w)
              <= Sum(ledger, w) + AddedAlong(p, Initial(cursor, ledger), evs) * p.recovery.maxRetries
  {
    WorkAlong(p, Initial(cursor, ledger), evs);
    hide Exec, AddedAlong, Sum;
  }

  // ---------------------------------------------------------------------------------------
  // No starvation.

  ghost predicate Waiting(l: seq<Entry>, b: nat, maxRetries: nat) {
    exists e :: e in l && e.number == b && CanRetry(e, maxRetries)
  }

  /** A status write lands; b is not pruned; no unknown number older than b is added. */
  ghost predicate FairStep(p: Params, s: Sys, ev: Event, b: nat)
    requires p.Valid()
  {
    && StatusLands(ev)
    && (ev.BeginRecovery? ==> SatSub(p.network.window.Confirmed(ev.latest), p.recovery.maxBlockAge) <= b)
    && (ev.BeginWatch? ==> NothingOlder(p, s, ev, Some(b)))
  }

  ghost predicate FairAlong(p: Params, s: Sys, evs: seq<Event>, b: nat)
    requires p.Valid()
    decreases |evs|
  {
    evs == [] || (FairStep(p, s, evs[0], b) && FairAlong(p, Step(p, s, evs[0]), evs[1..], b))
  }

  /** The step completes a recovery run: every selected entry has been attempted. */
  predicate Completes(s: Sys, ev: Event) {
    ev.FinishRecovery? && s.job.Working? && s.job.todo == []
  }

  function CompletedRuns(p: Params, s: Sys, evs: seq<Event>): nat
    requires p.Valid()
    decreases |evs|
  {
    if evs == [] then 0
    else (if Completes(s, evs[0]) then 1 else 0) + CompletedRuns(p, Step(p, s, evs[0]), evs[1..])
  }

  predicate Running(job: RecoveryPhase) {
    !job.Idle? && !job.Selecting?
  }

  ghost predicate Queued(s: Sys, b: nat) {
    exists e :: e in s.job.Todo() && e.number == b
  }

  /** Block b waits: it is not in flight and not done; a run that has not selected it selected a full
      batch of older entries. */
  ghost predicate Waits(p: Params, s: Sys, b: nat) {
    && Waiting(s.ledger, b, p.recovery.maxRetries)
    && (InFlight(s.job) ==> s.job.entry.number != b)
    && b !in s.job.Done()
    && (s.job.Selecting? ==> SatSub(s.job.confirmed, p.recovery.maxBlockAge) <= b)
    && (Running(s.job) && !Queued(s, b) ==>
          |s.job.todo| <= p.recovery.maxBlocksPerRun && forall e :: e in s.job.todo ==> e.number < b)
  }

  /** Requests the current run has already spent on older entries. */
  ghost function Spent(p: Params, s: Sys, b: nat): nat {
    if Running(s.job) && !Queued(s, b) && |s.job.todo| <= p.recovery.maxBlocksPerRun
    then p.recovery.maxBlocksPerRun - |s.job.todo| else 0
  }

  ghost function Rank(p: Params, s: Sys, b: nat): nat {
    Left(s, p.recovery.maxRetries, Some(b)) + Spent(p, s, b)
  }

  ghost predicate Advances(p: Params, s: Sys, ev: Event, b: nat)
    requires p.Valid()
  {
    var s' := Step(p, s, ev);
    || s'.attempted == s.attempted + [b]
    || (Waits(p, s', b)
        && Rank(p, s', b) + (if Completes(s, ev) then p.recovery.maxBlocksPerRun else 0) <= Rank(p, s, b))
  }

  lemma SelectAdvances(p: Params, s: Sys, b: nat)
    requires p.Valid() && Held(s, p.recovery.maxRetries) && Waits(p, s, b) && s.job.Selecting?
    ensures Advances(p, s, SelectBatch(true), b)
  {
    var batch := Job.Batch(s.ledger, p.recovery, s.job.confirmed);
    var e :| e in s.ledger && e.number == b && CanRetry(e, p.recovery.maxRetries);
    assert e in Eligible(s.ledger, SatSub(s.job.confirmed, p.recovery.maxBlockAge), p.recovery.maxRetries);
    var s' := Step(p, s, SelectBatch(true));
    assert s' == s.(job := Working(batch, []));
    hide Job.Batch, Select, Sum, UniqueKeys, Step, Held;
    OldestOrFull(s.ledger, p.recovery, s.job.confirmed, e);
    assert e in batch ==> Queued(s', b);
  }

  /** An eligible entry is selected, or the batch is full of older ones. */
  lemma OldestOrFull(l: seq<Entry>, cfg: Job.Config, confirmed: nat, e: Entry)
    requires UniqueKeys(l) && e in Eligible(l, SatSub(confirmed, cfg.maxBlockAge), cfg.maxRetries)
    ensures var batch := Job.Batch(l, cfg, confirmed);
            e in batch || (|batch| == cfg.maxBlocksPerRun && forall f :: f in batch ==> f.number < e.number)
  {
    Job.BatchIsOldest(l, cfg, confirmed);
    hide Job.Batch, Select;
    if e !in Job.Batch(l, cfg, confirmed) {
      Job.FullBatch(l, cfg, confirmed, e);
    }
  }

  lemma AdvancesBy(p: Params, s: Sys, ev: Event, s': Sys, b: nat)
    requires p.Valid() && Step(p, s, ev) == s'
    requires
      || s'.attempted == s.attempted + [b]
      || (Waits(p, s', b)
          && Rank(p, s', b) + (if Completes(s, ev) then p.recovery.maxBlocksPerRun else 0) <= Rank(p, s, b))
    ensures Advances(p, s, ev, b)
  {
    hide Step, Waits, Rank, Completes;
  }

  lemma MarkedIs(p: Params, s: Sys)
    requires p.Valid() && s.job.Working? && s.job.todo != []
    ensures var x, s' := s.job.todo[0], Step(p, s, Mark(true));
            s'.job == Marked(x, s.job.todo[1..], s.job.done) && s'.attempted == s.attempted + [x.number]
  {
    hide Job.WriteStatus;
  }

  lemma KeepsWaiting(l: seq<Entry>, l': seq<Entry>, n: nat, b: nat, maxRetries: nat)
    requires Waiting(l, b, maxRetries) && n != b && forall e :: e in l && e.number != n ==> e in l'
    ensures Waiting(l', b, maxRetries)
  {
  }

  lemma MarkAdvances(p: Params, s: Sys, b: nat)
    requires p.Valid() && Held(s, p.recovery.maxRetries) && Waits(p, s, b) && s.job.Working? && s.job.todo != []
    ensures Advances(p, s, Mark(true), b)
  {
    var x := s.job.todo[0];
    var s' := Step(p, s, Mark(true));
    MarkCost(p, s, Some(b));
    MarkedIs(p, s);
    hide Held, Left, Step, UniqueKeys, Advances, Waiting;
    if x.number != b {
      KeepsWaiting(s.ledger, s'.ledger, x.number, b, p.recovery.maxRetries);
      MarkedWaits(p, s, s', b);
    }
    hide Waits, Spent, Queued;
    AdvancesBy(p, s, Mark(true), s', b);
  }

  lemma MarkedWaits(p: Params, s: Sys, s': Sys, b: nat)
    requires Waits(p, s, b) && s.job.Working? && s.job.todo != [] && s.job.todo[0].number != b
    requires s'.job == Marked(s.job.todo[0], s.job.todo[1..], s.job.done)
             && Waiting(s'.ledger, b, p.recovery.maxRetries)
    ensures Waits(p, s', b) && Spent(p, s', b) <= Spent(p, s, b) + Asks(s, Mark(true), Some(b))
  {
    hide Waiting;
    assert s.job.todo == [s.job.todo[0]] + s.job.todo[1..];
    assert s.job.Todo() == s.job.todo && s'.job.Todo() == s.job.todo[1..];
    assert Queued(s', b) <==> Queued(s, b);
    assert s.job.todo[0] in s.job.todo;
  }

  lemma SettleAdvances(p: Params, s: Sys, b: nat)
    requires p.Valid() && Held(s, p.recovery.maxRetries) && Waits(p, s, b) && (s.job.Delivered? || s.job.Refused?)
    ensures Advances(p, s, Settle(true), b)
  {
    var s' := SettleStep(p, s, true);
    SettleCost(p, s, Some(b));
    SettledIs(p, s);
    hide Held, Left, UniqueKeys, SettleStep, Step, Waiting, Advances;
    KeepsWaiting(s.ledger, s'.ledger, s.job.entry.number, b, p.recovery.maxRetries);
    SameTodo(p, s, s', b);
    hide Queued, Spent;
    assert Waits(p, s', b);
    hide Waits;
    AdvancesBy(p, s, Settle(true), s', b);
  }

  lemma SettledIs(p: Params, s: Sys)
    requires p.Valid() && (s.job.Delivered? || s.job.Refused?)
    ensures var s' := SettleStep(p, s, true);
            && s'.job.Working? && s'.job.todo == s.job.todo && s'.attempted == s.attempted
              && Step(p, s, Settle(true)) == s'
            && s'.job.Done() <= s.job.Done() + [s.job.entry.number]
  {
    hide Job.WriteStatus;
  }

  lemma SameTodo(p: Params, s: Sys, s': Sys, b: nat)
    requires Running(s.job) && Running(s'.job) && s'.job.todo == s.job.todo
    ensures (Queued(s', b) <==> Queued(s, b)) && Spent(p, s', b) == Spent(p, s, b)
  {
    assert s'.job.Todo() == s.job.Todo();
  }

  lemma PruneAdvances(p: Params, s: Sys, latest: nat, b: nat)
    requires p.Valid() && Held(s, p.recovery.maxRetries) && Waits(p, s, b) && s.job.Idle?
    requires FairStep(p, s, BeginRecovery(latest, true), b)
    ensures Advances(p, s, BeginRecovery(latest, true), b)
  {
    var ev := BeginRecovery(latest, true);
    var least := SatSub(p.network.window.Confirmed(latest), p.recovery.maxBlockAge);
    StepCost(p, s, ev, Some(b));
    var s' := Step(p, s, ev);
    PrunedIs(p, s, latest);
    hide Step, Held, Left, UniqueKeys;
    SelectWaits(s.ledger, NotOlder(least), b, p.recovery.maxRetries);
    hide Waiting, Advances, Prune;
    AdvancesBy(p, s, ev, s', b);
  }

  lemma PrunedIs(p: Params, s: Sys, latest: nat)
    requires p.Valid() && s.job.Idle?
    ensures var s' := Step(p, s, BeginRecovery(latest, true));
            && s'.ledger == Prune(s.ledger, SatSub(p.network.window.Confirmed(latest), p.recovery.maxBlockAge))
            && s'.attempted == s.attempted && s'.job == Selecting(p.network.window.Confirmed(latest))
  {
  }

  lemma FinishAdvances(p: Params, s: Sys, lands: bool, b: nat)
    requires p.Valid() && Held(s, p.recovery.maxRetries) && Waits(p, s, b) && Completes(s, FinishRecovery(lands))
    ensures Advances(p, s, FinishRecovery(lands), b)
  {
    var ev := FinishRecovery(lands);
    StepCost(p, s, ev, Some(b));
    var s' := Step(p, s, ev);
    assert s'.ledger == (if lands then Remove(s.ledger, Elems(s.job.done)) else s.ledger);
    assert s'.job == Idle && s'.attempted == s.attempted;
    hide Step, Held, Left, UniqueKeys, Advances;
    SelectWaits(s.ledger, NotIn(Elems(s.job.done)), b, p.recovery.maxRetries);
    hide Waiting;
    RestWaits(p, s', b);
    FullySpent(p, s, b);
    hide Waits, Spent, Remove;
    AdvancesBy(p, s, ev, s', b);
  }

  lemma RestWaits(p: Params, s: Sys, b: nat)
    requires s.job == Idle && Waiting(s.ledger, b, p.recovery.maxRetries)
    ensures Waits(p, s, b) && Spent(p, s, b) == 0
  {
    hide Waiting;
  }

  lemma FullySpent(p: Params, s: Sys, b: nat)
    requires s.job.Working? && s.job.todo == []
    ensures Spent(p, s, b) == p.recovery.maxBlocksPerRun
  {
    assert !Queued(s, b);
  }

  lemma SelectWaits(l: seq<Entry>, keep: Entry -> bool, b: nat, maxRetries: nat)
    requires Waiting(l, b, maxRetries) && forall e: Entry :: e.number == b ==> keep(e)
    ensures Waiting(Select(l, keep), b, maxRetries)
  {
  }

  lemma WatchAdvances(p: Params, s: Sys, ev: Event, b: nat)
    requires p.Valid() && Held(s, p.recovery.maxRetries) && Waits(p, s, b) && FairStep(p, s, ev, b) && ev.BeginWatch?
    ensures Advances(p, s, ev, b)
  {
    StepCost(p, s, ev, Some(b));
    WatchAddsFresh(p, s, ev);
    var s' := Step(p, s, ev);
    hide Held, Left, UniqueKeys, NothingOlder, Step;
    assert Waiting(s'.ledger, b, p.recovery.maxRetries);
    hide Waiting;
  }

  lemma FetchAdvances(p: Params, s: Sys, answer: Job.Answer, b: nat)
    requires p.Valid() && Held(s, p.recovery.maxRetries) && Waits(p, s, b) && s.job.Marked?
    ensures Advances(p, s, Fetch(answer), b)
  {
    var s' := Step(p, s, Fetch(answer));
    StepCost(p, s, Fetch(answer), Some(b));
    assert s'.ledger == s.ledger && s'.attempted == s.attempted;
    assert Running(s'.job) && s'.job.todo == s.job.todo && s'.job.Done() == s.job.Done() && s'.job.entry == s.job.entry;
    hide Held, Left, UniqueKeys, Waiting, Step, Advances;
    SameTodo(p, s, s', b);
    hide Queued, Spent;
    assert Waits(p, s', b);
    hide Waits;
    AdvancesBy(p, s, Fetch(answer), s', b);
  }

  lemma OtherAdvances(p: Params, s: Sys, ev: Event, b: nat)
    requires p.Valid() && Held(s, p.recovery.maxRetries) && Waits(p, s, b) && FairStep(p, s, ev, b)
    requires ev.FireNext? || ev.CommitCursor? || ev.AbortWatch? || ev.Crash?
    ensures Advances(p, s, ev, b)
  {
    var s' := Step(p, s, ev);
    StepCost(p, s, ev, Some(b));
    assert s'.ledger == s.ledger && s'.attempted == s.attempted && (s'.job == Idle || s'.job == s.job);
    hide Held, Left, UniqueKeys, Waiting, Step, Advances;
    if s'.job == Idle {
      assert Waiting(s'.ledger, b, p.recovery.maxRetries);
      RestWaits(p, s', b);
    } else {
      assert Waits(p, s', b) && Spent(p, s', b) == Spent(p, s, b);
    }
    hide Waits, Spent;
    AdvancesBy(p, s, ev, s', b);
  }

  lemma StepAdvances(p: Params, s: Sys, ev: Event, b: nat)
    requires p.Valid() && Held(s, p.recovery.maxRetries) && Waits(p, s, b) && FairStep(p, s, ev, b)
    ensures Advances(p, s, ev, b)
  {
    match ev
    case BeginWatch(_, _, _, _) => WatchAdvances(p, s, ev, b);
    case BeginRecovery(latest, lands) => if s.job.Idle? && lands { PruneAdvances(p, s, latest, b); }
    case SelectBatch(lands) => if s.job.Selecting? && lands { SelectAdvances(p, s, b); }
    case Mark(_) => if s.job.Working? && s.job.todo != [] { MarkAdvances(p, s, b); }
    case Settle(_) => if s.job.Delivered? || s.job.Refused? { SettleAdvances(p, s, b); }
    case Fetch(answer) => if s.job.Marked? { FetchAdvances(p, s, answer, b); }
    case FinishRecovery(lands) => if Completes(s, ev) { FinishAdvances(p, s, lands, b); }
    case _ => OtherAdvances(p, s, ev, b);
  }

  lemma {:induction false} AdvancesAlong(p: Params, s: Sys, evs: seq<Event>, b: nat)
    requires p.Valid() && Held(s, p.recovery.maxRetries) && Waits(p, s, b) && FairAlong(p, s, evs, b)
    ensures var s' := Exec(p, s, evs);
            && s.attempted <= s'.attempted
            && (|| b in s'.attempted[|s.attempted|..]
                || CompletedRuns(p, s, evs) * p.recovery.maxBlocksPerRun <= Rank(p, s, b))
    decreases |evs|
  {
    AttemptedAlong(p, s, evs);
    if evs != [] {
      var ev, s1 := evs[0], Step(p, s, evs[0]);
      var s' := Exec(p, s1, evs[1..]);
      StepCost(p, s, ev, None);
      AttemptedStep(p, s, ev);
      StepAdvances(p, s, ev, b);
      AttemptedAlong(p, s1, evs[1..]);
      hide Step, Held, Waits, Rank, Asks;
      if s1.attempted == s.attempted + [b] {
        AttemptedFirst(s.attempted, s1.attempted, s'.attempted, b);
      } else {
        AdvancesAlong(p, s1, evs[1..], b);
        AttemptedLater(s.attempted, s1.attempted, s'.attempted);
        AddUp(if Completes(s, ev) then 1 else 0, CompletedRuns(p, s1, evs[1..]), CompletedRuns(p, s, evs),
          p.recovery.maxBlocksPerRun);
      }
      hide Exec, CompletedRuns, Completes;
    }
  }

  lemma AttemptedFirst(before: seq<nat>, now: seq<nat>, later: seq<nat>, b: nat)
    requires now == before + [b] && now <= later
    ensures b in later[|before|..]
  {
    assert later[|before|..][0] == now[|before|] == b;
  }

  lemma AttemptedLater(before: seq<nat>, now: seq<nat>, later: seq<nat>)
    requires before <= now <= later
    ensures forall b :: b in later[|now|..] ==> b in later[|before|..]
  {
    assert later[|before|..] == now[|before|..] + later[|now|..];
  }

  lemma {:induction false} AttemptedAlong(p: Params, s: Sys, evs: seq<Event>)
    requires p.Valid()
    ensures s.attempted <= Exec(p, s, evs).attempted
    decreases |evs|
  {
    if evs != [] {
      AttemptedStep(p, s, evs[0]);
      AttemptedAlong(p, Step(p, s, evs[0]), evs[1..]);
      hide Step;
    }
  }

  /** No starvation, over every interleaving of the two jobs: a waiting block is asked for before
      floor(D / m) + 1 recovery runs are complete, D being the retries left to older entries when it
      began to wait and m the batch size. Runs that crash or end early do not count, and do no harm. */
  lemma NoStarvation(p: Params, s: Sys, evs: seq<Event>, b: nat)
    requires p.Valid() && 1 <= p.recovery.maxBlocksPerRun
    requires UniqueKeys(s.ledger) && s.job == Idle && Waiting(s.ledger, b, p.recovery.maxRetries)
    requires FairAlong(p, s, evs, b)
    requires Sum(s.ledger, Budget(p.recovery.maxRetries, Some(b))) / p.recovery.maxBlocksPerRun + 1
             <= CompletedRuns(p, s, evs)
    ensures s.attempted <= Exec(p, s, evs).attempted
    ensures b in Exec(p, s, evs).attempted[|s.attempted|..]
  {
    AdvancesAlong(p, s, evs, b);
    var d, m, runs := Sum(s.ledger, Budget(p.recovery.maxRetries, Some(b))), p.recovery.maxBlocksPerRun,
      CompletedRuns(p, s, evs);
    assert Rank(p, s, b) == d;
    hide *;
    TooMany(runs, m, d);
  }

  lemma TooMany(runs: nat, m: nat, d: nat)
    requires 1 <= m && d / m + 1 <= runs
    ensures d < runs * m
  {
    if runs * m <= d {
      DivBound(runs, m, d);
    }
  }
}
