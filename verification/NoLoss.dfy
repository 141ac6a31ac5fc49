/** No block is lost: whatever fails, every number the cursor has moved past was handed to the
    trigger handler, is in the ledger of missed blocks, was pruned from it as too old, or lay
    below the window of the run that passed it. */
module NoLoss {
  import opened Basics
  import opened Window
  import opened Tracker
  import opened Gaps
  import opened Ledger
  import opened Watcher
  import opened Protocol
  import Buffer = ReorderBuffer
  import Job = Recovery

  ghost predicate AccountedFor(s: Sys, n: nat) {
    n in s.fired || n in s.redelivered || n in Keys(s.ledger) || n in s.pruned || n in s.skipped
  }

  /** What the node and the configuration must provide: gaps are recorded, and an answer reaches down to
      the first and up to the last number of the window. */
  ghost predicate Provided(p: Params, s: Sys, ev: Event)
    requires p.Valid()
  {
    && (p.network.storeBlocks || p.network.recoveryEnabled)
    && ComesBack(p, s, ev)
    && (ev.BeginWatch? ==>
          var start, tip := StartOf(p, s, ev.latest), p.network.window.Confirmed(ev.latest);
          s.cursor < tip ==> Endpoints(ev.blocks, start, tip))
  }

  ghost predicate ProvidedAlong(p: Params, s: Sys, evs: seq<Event>)
    requires p.Valid()
    decreases |evs|
  {
    evs == [] || (Provided(p, s, evs[0]) && ProvidedAlong(p, Step(p, s, evs[0]), evs[1..]))
  }

  /** Numbers the recovery job is about to remove were handed over. */
  ghost predicate JobHonest(s: Sys) {
    match s.job
    case Idle => true
    case Selecting(_) => true
    case Delivered(e, _, done) => e.number in s.redelivered && forall n :: n in done ==> n in s.redelivered
    case Working(_, done) => forall n :: n in done ==> n in s.redelivered
    case Marked(_, _, done) => forall n :: n in done ==> n in s.redelivered
    case Refused(_, _, done) => forall n :: n in done ==> n in s.redelivered
  }

  /** During a run, every requested number is accounted for or still queued. */
  ghost predicate WatchHonest(s: Sys) {
    s.watch.Firing? ==>
      forall n :: s.watch.start <= n <= s.watch.tip ==> AccountedFor(s, n) || n in s.watch.queue
  }

  ghost predicate Inv(c: nat, s: Sys) {
    && UniqueKeys(s.ledger)
    && JobHonest(s)
    && WatchHonest(s)
    && forall n :: c < n <= s.cursor ==> AccountedFor(s, n)
  }

  /** No step makes an accounted number unaccounted. */
  lemma StaysAccounted(p: Params, s: Sys, ev: Event)
    requires p.Valid() && UniqueKeys(s.ledger) && JobHonest(s)
    ensures var s' := Step(p, s, ev);
            UniqueKeys(s'.ledger) && forall n :: AccountedFor(s, n) ==> AccountedFor(s', n)
  {
    match ev
    case BeginWatch(_, blocks, _, _) =>
      SavingGapsKeepsUnique(s.ledger, FetchedBy(p, s, ev));
      AddMissingKeeps(s.ledger, DetectMissing(FetchedBy(p, s, ev)));
    case BeginRecovery(latest, _) =>
      SelectUnique(s.ledger, NotOlder(SatSub(p.network.window.Confirmed(latest), p.recovery.maxBlockAge)));
    case Mark(lands) =>
      if s.job.Working? && s.job.todo != [] {
        Job.WriteStatusEffect(s.ledger, s.job.todo[0].number, Recovering, lands);
      }
    case Settle(lands) =>
      if s.job.Delivered? || s.job.Refused? {
        Job.WriteStatusEffect(s.ledger, s.job.entry.number,
          if s.job.Delivered? then Recovered else Job.AfterFailure(s.job.entry, p.recovery.maxRetries), lands);
      }
    case FinishRecovery(_) =>
      if s.job.Working? {
        SelectUnique(s.ledger, NotIn(Elems(s.job.done)));
        RemoveKeys(s.ledger, Elems(s.job.done));
      }
    case _ =>
  }

  lemma RemoveKeys(l: seq<Entry>, ns: set<nat>)
    ensures Keys(Remove(l, ns)) == Keys(l) - ns
  {
    forall n ensures n in Keys(Remove(l, ns)) <==> n in Keys(l) && n !in ns {
      if n in Keys(l) && n !in ns {
        var e :| e in l && e.number == n;
        assert e in Remove(l, ns);
      }
    }
  }

  lemma WatchStaysHonest(p: Params, s: Sys, ev: Event)
    requires p.Valid() && UniqueKeys(s.ledger) && JobHonest(s) && WatchHonest(s)
    requires Provided(p, s, ev)
    ensures WatchHonest(Step(p, s, ev))
  {
    StaysAccounted(p, s, ev);
    if ev.BeginWatch? && s.watch.Resting? {
      BeginHonest(p, s, ev);
    } else if ev.FireNext? && s.watch.Firing? && s.watch.queue != [] {
      var s' := FireStep(p, s);
      forall n | s.watch.start <= n <= s.watch.tip ensures AccountedFor(s', n) || n in s'.watch.queue {
        if n in s.watch.queue && n != s.watch.queue[0] {
          assert n in s.watch.queue[1..];
        }
      }
    }
  }

  lemma BeginHonest(p: Params, s: Sys, ev: Event)
    requires p.Valid() && ev.BeginWatch? && s.watch.Resting?
    requires Provided(p, s, ev)
    ensures WatchHonest(BeginWatchStep(p, s, ev))
  {
    var s' := BeginWatchStep(p, s, ev);
    var start, tip := StartOf(p, s, ev.latest), p.network.window.Confirmed(ev.latest);
    var blocks := FetchedBy(p, s, ev);
    if s'.watch.Firing? && start <= tip {
      QueueNumbers(p, s, ev);
      EndpointsCover(blocks, start, tip);
      AddMissingKeeps(s.ledger, DetectMissing(blocks));
      forall n | start <= n <= tip ensures AccountedFor(s', n) || n in s'.watch.queue {
        HandedNumbers(blocks, n);
        assert Some(n) in blocks || n in DetectMissing(blocks);
        if Some(n) in blocks {
          assert n in Elems(Handed(blocks));
          assert n in Elems(s'.watch.queue);
        } else {
          assert n in Elems(DetectMissing(blocks));
        }
      }
    }
  }

  lemma InvStep(p: Params, c: nat, s: Sys, ev: Event)
    requires p.Valid() && Inv(c, s) && Provided(p, s, ev)
    ensures Inv(c, Step(p, s, ev))
  {
    StaysAccounted(p, s, ev);
    WatchStaysHonest(p, s, ev);
    var s' := Step(p, s, ev);
    assert JobHonest(s');
    if ev.CommitCursor? && s.watch.Firing? && s.watch.queue == [] && ev.lands {
      ElemsRange(s.cursor + 1, s.watch.start);
      forall n | c < n <= s'.cursor ensures AccountedFor(s', n) {
        if s.cursor < n < s.watch.start {
          assert n in Skipped(s.cursor, s.watch.start);
        }
      }
    }
  }

  lemma {:induction false} InvAlong(p: Params, c: nat, s: Sys, evs: seq<Event>)
    requires p.Valid() && Inv(c, s) && ProvidedAlong(p, s, evs)
    ensures Inv(c, Exec(p, s, evs))
    decreases |evs|
  {
    hide Step;
    if evs != [] {
      InvStep(p, c, s, evs[0]);
      InvAlong(p, c, Step(p, s, evs[0]), evs[1..]);
    }
  }

  /** No loss under failure, for every interleaving of the two jobs, failed writes, aborted runs and
      crashes, from any cursor and any ledger. */
  lemma NothingIsLost(p: Params, cursor: nat, ledger: seq<Entry>, evs: seq<Event>, n: nat)
    requires p.Valid() && UniqueKeys(ledger)
    requires ProvidedAlong(p, Initial(cursor, ledger), evs)
    ensures var s := Exec(p, Initial(cursor, ledger), evs);
            cursor < n <= s.cursor ==> AccountedFor(s, n)
  {
    InvAlong(p, cursor, Initial(cursor, ledger), evs);
  }

  // ---------------------------------------------------------------------------------------
  // Going back to cursor 0.

  function Rewind(latest: nat): seq<Event> {
    [BeginWatch(latest, [], [], true), CommitCursor(true)]
  }

  /** The run from cursor 0, which asks for the tip alone. */
  function Lone(p: Params, latest: nat, payload: nat): seq<Event> {
    var tip := p.network.window.Confirmed(latest);
    [BeginWatch(latest, [Some(tip)], [Buffer.Processed(tip, payload)], true), FireNext, CommitCursor(true)]
  }

  /** Cursor 0 means "first run". A run that sees block 0 as the confirmed tip sets the cursor back to
      0, and the next run then asks for its tip alone: afterwards exactly the tip, the numbers below
      its window and those that were in the ledger are accounted for. */
  lemma RewoundRunAccounts(p: Params, cursor: nat, ledger: seq<Entry>, low: nat, latest: nat, payload: nat, n: nat)
    requires p.Valid() && p.network.window.Confirmed(low) == 0
    requires 1 <= cursor && 1 <= n
    ensures var s := Exec(p, Exec(p, Initial(cursor, ledger), Rewind(low)), Lone(p, latest, payload));
            var tip := p.network.window.Confirmed(latest);
            && s.cursor == tip
            && (AccountedFor(s, n) <==>
                  n == tip || n in Keys(ledger) || n < StartBlock(0, tip, p.network.window.PastBlocks()))
  {
    Rewinds(p, cursor, ledger, low);
    LoneRun(p, Exec(p, Initial(cursor, ledger), Rewind(low)), latest, payload);
    hide Exec;
    ElemsRange(1, StartBlock(0, p.network.window.Confirmed(latest), p.network.window.PastBlocks()));
  }

  lemma Rewinds(p: Params, cursor: nat, ledger: seq<Entry>, low: nat)
    requires p.Valid() && p.network.window.Confirmed(low) == 0 && 1 <= cursor
    ensures var s := Exec(p, Initial(cursor, ledger), Rewind(low));
            s == Initial(0, ledger).(net := s.net)
  {
    ExecTwo(p, Initial(cursor, ledger), BeginWatch(low, [], [], true), CommitCursor(true));
    assert StartOf(p, Initial(cursor, ledger), low) == cursor + 1;
    assert Buffer.Fire(cursor + 1, []) == [];
    assert AddMissing(ledger, []) == ledger;
    assert DetectMissing([]) == [];
    assert Skipped(cursor, cursor + 1) == {};
  }

  lemma LoneRun(p: Params, s: Sys, latest: nat, payload: nat)
    requires p.Valid() && s.cursor == 0 && s.watch == Resting
    ensures var tip := p.network.window.Confirmed(latest);
            var s' := Exec(p, s, Lone(p, latest, payload));
            s' == s.(cursor := tip, fired := s.fired + [tip], net := s'.net, verdicts := s'.verdicts,
                     skipped := s.skipped + Skipped(0, StartBlock(0, tip, p.network.window.PastBlocks())))
  {
    var tip := p.network.window.Confirmed(latest);
    LoneBegin(p, s, latest, payload);
    ExecThree(p, s, BeginWatch(latest, [Some(tip)], [Buffer.Processed(tip, payload)], true), FireNext,
      CommitCursor(true));
    hide Check, Verdict, Skipped, StartBlock;
  }

  lemma LoneBegin(p: Params, s: Sys, latest: nat, payload: nat)
    requires p.Valid() && s.cursor == 0 && s.watch == Resting
    ensures var tip := p.network.window.Confirmed(latest);
            var start := StartBlock(0, tip, p.network.window.PastBlocks());
            var s' := Step(p, s, BeginWatch(latest, [Some(tip)], [Buffer.Processed(tip, payload)], true));
            s' == s.(net := Reset(s.net, start), watch := Firing(start, tip, [tip]))
  {
    hide Buffer.Fire, DetectMissing, StartBlock, Reset;
    var tip := p.network.window.Confirmed(latest);
    Buffer.FiresLone(StartBlock(0, tip, p.network.window.PastBlocks()), Buffer.Processed(tip, payload));
    NoGapInOne(tip);
    assert AddMissing(s.ledger, []) == s.ledger;
  }
}
