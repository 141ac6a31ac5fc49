/** The status automaton of ledger entries, over all interleavings of gap saving and recovery steps
    whose writes land, with a fixed retry limit of at least one. */
module LedgerStatus {
  import opened Basics
  import opened Gaps
  import opened Ledger
  import opened Protocol
  import Job = Recovery
  import Buffer = ReorderBuffer

  /** Status writes and removals land and the process does not die. Reads may fail, runs may end early. */
  ghost predicate Reliable(ev: Event) {
    && !ev.Crash?
    && (ev.Mark? || ev.Settle? || ev.FinishRecovery? ==> ev.lands)
  }

  ghost predicate EntryOk(e: Entry, maxRetries: nat) {
    && e.retries <= maxRetries
    && (e.status == Failed <==> e.retries == maxRetries)
  }

  ghost predicate InFlight(job: RecoveryPhase) {
    job.Marked? || job.Delivered? || job.Refused?
  }

  /** Selected entries are still in the ledger as selected. */
  ghost predicate TodoOk(s: Sys, maxRetries: nat) {
    && UniqueKeys(s.job.Todo())
    && forall e :: e in s.job.Todo() ==> e in s.ledger && e.status == Pending && e.retries < maxRetries
  }

  /** Recovering marks the entry in flight, Recovered the entries done in the current run; there are
      no others. */
  ghost predicate StatusOk(s: Sys) {
    && (forall e :: e in s.ledger && e.status == Recovering ==> InFlight(s.job) && e.number == s.job.entry.number)
    && (forall e :: e in s.ledger ==> (e.status == Recovered <==> e.number in s.job.Done()))
    && (forall n :: n in s.job.Done() ==> n in Keys(s.ledger))
    && (InFlight(s.job) ==> s.job.entry.(status := Recovering) in s.ledger && s.job.entry.status == Pending)
  }

  ghost predicate Inv(s: Sys, maxRetries: nat) {
    && UniqueKeys(s.ledger)
    && (forall e :: e in s.ledger ==> EntryOk(e, maxRetries))
    && TodoOk(s, maxRetries)
    && StatusOk(s)
  }

  /** Effect of one landed status write. */
  lemma SetStatusEffect(l: seq<Entry>, x: Entry, status: Status)
    requires UniqueKeys(l) && x in l
    ensures var l' := SetStatus(l, x.number, status);
            && UniqueKeys(l')
            && (forall e :: e in l' <==> (e in l && e.number != x.number) || e == Updated(x, status))
  {
    SetStatusMembers(l, x.number, status);
    var l' := SetStatus(l, x.number, status);
    forall i | 0 <= i < |l| && l[i].number == x.number ensures l[i] == x {
      UniqueEntry(l, l[i], x);
    }
    var j :| 0 <= j < |l| && l[j] == x;
    assert l'[j] == Updated(x, status);
    forall e | e in l && e.number != x.number ensures e in l' {
      var i :| 0 <= i < |l| && l[i] == e;
      assert l'[i] == e;
    }
    forall e | e in l' ensures (e in l && e.number != x.number) || e == Updated(x, status) {
      var i :| 0 <= i < |l'| && l'[i] == e;
      assert l[i] in l;
    }
  }

  lemma BeginWatchKeeps(p: Params, s: Sys, ev: Event)
    requires p.Valid() && ev.BeginWatch? && Inv(s, p.recovery.maxRetries) && 1 <= p.recovery.maxRetries
    ensures Inv(Step(p, s, ev), p.recovery.maxRetries)
    ensures s.ledger <= Step(p, s, ev).ledger
  {
    hide Buffer.Fire, DetectMissing;
    var gaps := DetectMissing(FetchedBy(p, s, ev));
    GapsArePartition(FetchedBy(p, s, ev));
    AddMissingKeeps(s.ledger, gaps);
    AddKeeps(s, gaps, p.recovery.maxRetries);
    hide AddMissing, UniqueKeys, EntryOk, TodoOk, StatusOk;
    if p.network.RecordsGaps() && Step(p, s, ev).watch.Firing? && s.watch.Resting? {
      SameLedger(s.(ledger := AddMissing(s.ledger, gaps)), Step(p, s, ev), p.recovery.maxRetries);
    } else {
      SameLedger(s, Step(p, s, ev), p.recovery.maxRetries);
    }
  }

  lemma SameLedger(s: Sys, s': Sys, maxRetries: nat)
    requires Inv(s, maxRetries) && s'.ledger == s.ledger && s'.job == s.job
    ensures Inv(s', maxRetries)
  {
  }

  lemma AddKeeps(s: Sys, gaps: seq<nat>, maxRetries: nat)
    requires Inv(s, maxRetries) && 1 <= maxRetries && Distinct(gaps)
    ensures Inv(s.(ledger := AddMissing(s.ledger, gaps)), maxRetries)
  {
    var l' := AddMissing(s.ledger, gaps);
    AddMissingKeeps(s.ledger, gaps);
    hide AddMissing;
    forall e | e in l' && e !in s.ledger
      ensures e.status == Pending && e.retries == 0 && e.number !in s.job.Done()
    {
    }
  }

  lemma SelectKeeps(p: Params, s: Sys, lands: bool)
    requires p.Valid() && Inv(s, p.recovery.maxRetries)
    ensures Inv(Step(p, s, SelectBatch(lands)), p.recovery.maxRetries)
  {
    if s.job.Selecting? {
      var batch := Job.Batch(s.ledger, p.recovery, s.job.confirmed);
      Job.BatchIsOldest(s.ledger, p.recovery, s.job.confirmed);
      Job.UniqueNumbers(batch);
      hide Job.Batch, Select, Job.NumbersOf, UniqueKeys;
      if lands {
        WorkingKeeps(s, batch, p.recovery.maxRetries);
      } else {
        IdleKeeps(s, p.recovery.maxRetries);
      }
      hide Inv;
    }
  }

  lemma WorkingKeeps(s: Sys, batch: seq<Entry>, maxRetries: nat)
    requires Inv(s, maxRetries) && s.job.Selecting? && UniqueKeys(batch)
    requires forall e :: e in batch ==> e in s.ledger && e.status == Pending && e.retries < maxRetries
    ensures Inv(s.(job := Working(batch, [])), maxRetries)
  {
    hide UniqueKeys;
  }

  lemma IdleKeeps(s: Sys, maxRetries: nat)
    requires Inv(s, maxRetries) && s.job.Selecting?
    ensures Inv(s.(job := Idle), maxRetries)
  {
    hide UniqueKeys;
  }

  lemma PruneKeeps(p: Params, s: Sys, latest: nat)
    requires p.Valid() && s.job.Idle? && Inv(s, p.recovery.maxRetries)
    ensures Inv(PruneStep(p, s, latest), p.recovery.maxRetries)
  {
    SelectUnique(s.ledger, NotOlder(SatSub(p.network.window.Confirmed(latest), p.recovery.maxBlockAge)));
  }

  lemma MarkKeeps(p: Params, s: Sys)
    requires p.Valid() && Inv(s, p.recovery.maxRetries)
    ensures Inv(Step(p, s, Mark(true)), p.recovery.maxRetries)
  {
    if s.job.Working? && s.job.todo != [] {
      var x := s.job.todo[0];
      assert x in s.job.Todo();
      SetStatusEffect(s.ledger, x, Recovering);
      assert Updated(x, Recovering) == x.(status := Recovering);
      forall e | e in s.job.todo[1..] ensures e.number != x.number {
        var i :| 1 <= i < |s.job.todo| && s.job.todo[i] == e;
      }
    }
  }

  lemma SettleKeeps(p: Params, s: Sys)
    requires p.Valid() && Inv(s, p.recovery.maxRetries) && (s.job.Delivered? || s.job.Refused?)
    ensures Inv(SettleStep(p, s, true), p.recovery.maxRetries)
  {
    var x := s.job.entry.(status := Recovering);
    TodoAvoids(s, x, p.recovery.maxRetries);
    if s.job.Delivered? {
      DeliveredKeeps(p, s, x);
    } else {
      RefusedKeeps(p, s, x);
    }
  }

  lemma TodoAvoids(s: Sys, x: Entry, maxRetries: nat)
    requires Inv(s, maxRetries) && InFlight(s.job) && x == s.job.entry.(status := Recovering)
    ensures forall e :: e in s.job.todo ==> e.number != x.number
  {
    forall e | e in s.job.todo && e.number == x.number ensures false {
      assert e in s.job.Todo();
      UniqueEntry(s.ledger, e, x);
    }
  }

  lemma DeliveredKeeps(p: Params, s: Sys, x: Entry)
    requires p.Valid() && Inv(s, p.recovery.maxRetries) && s.job.Delivered? && x == s.job.entry.(status := Recovering)
    requires forall e :: e in s.job.todo ==> e.number != x.number
    ensures Inv(SettleStep(p, s, true), p.recovery.maxRetries)
  {
    SetStatusEffect(s.ledger, x, Recovered);
    SetStatusMembers(s.ledger, x.number, Recovered);
    var s' := SettleStep(p, s, true);
    assert Updated(x, Recovered) == x.(status := Recovered);
    assert s' == s.(ledger := SetStatus(s.ledger, x.number, Recovered),
                     job := Working(s.job.todo, s.job.done + [x.number]));
    hide SetStatus, UniqueKeys, SettleStep;
    WrittenDone(s, s', x, p.recovery.maxRetries);
  }

  /** The entry in flight becomes Recovered. */
  lemma WrittenDone(s: Sys, s': Sys, x: Entry, maxRetries: nat)
    requires Inv(s, maxRetries) && s.job.Delivered? && x == s.job.entry.(status := Recovering)
    requires s'.job == Working(s.job.todo, s.job.done + [x.number])
    requires forall e :: e in s.job.todo ==> e.number != x.number
    requires UniqueKeys(s'.ledger) && Keys(s'.ledger) == Keys(s.ledger)
    requires forall e :: e in s'.ledger <==> (e in s.ledger && e.number != x.number) || e == x.(status := Recovered)
    ensures Inv(s', maxRetries)
  {
    hide UniqueKeys, Keys;
    assert EntryOk(x.(status := Recovered), maxRetries);
    assert x.number in Keys(s.ledger) by {
      assert x in s.ledger;
    }
    assert TodoOk(s', maxRetries) by {
      hide StatusOk, EntryOk;
    }
    assert StatusOk(s') by {
      hide TodoOk, EntryOk;
      assert forall n :: n in s'.job.Done() <==> n in s.job.done || n == x.number;
    }
    hide StatusOk, TodoOk;
  }

  lemma RefusedKeeps(p: Params, s: Sys, x: Entry)
    requires p.Valid() && Inv(s, p.recovery.maxRetries) && s.job.Refused? && x == s.job.entry.(status := Recovering)
    requires forall e :: e in s.job.todo ==> e.number != x.number
    ensures Inv(SettleStep(p, s, true), p.recovery.maxRetries)
  {
    var status := Job.AfterFailure(s.job.entry, p.recovery.maxRetries);
    SetStatusEffect(s.ledger, x, status);
    SetStatusMembers(s.ledger, x.number, status);
    assert x.number !in s.job.Done();
    assert EntryOk(Updated(x, status), p.recovery.maxRetries);
    var s' := SettleStep(p, s, true);
    assert s' == s.(ledger := SetStatus(s.ledger, x.number, status), job := Working(s.job.todo, s.job.done));
    hide SetStatus, UniqueKeys, SettleStep;
    WrittenBack(s, s', x, Updated(x, status), p.recovery.maxRetries);
  }

  /** The entry in flight becomes Pending or Failed again. */
  lemma WrittenBack(s: Sys, s': Sys, x: Entry, y: Entry, maxRetries: nat)
    requires Inv(s, maxRetries) && s.job.Refused? && x == s.job.entry.(status := Recovering)
    requires y.number == x.number && (y.status == Pending || y.status == Failed) && EntryOk(y, maxRetries)
    requires s'.job == Working(s.job.todo, s.job.done) && x.number !in s.job.Done()
    requires forall e :: e in s.job.todo ==> e.number != x.number
    requires UniqueKeys(s'.ledger) && Keys(s'.ledger) == Keys(s.ledger)
    requires forall e :: e in s'.ledger <==> (e in s.ledger && e.number != x.number) || e == y
    ensures Inv(s', maxRetries)
  {
    hide UniqueKeys, Keys;
    assert TodoOk(s', maxRetries) by {
      hide StatusOk, EntryOk;
    }
    assert StatusOk(s') by {
      hide TodoOk, EntryOk;
    }
    hide StatusOk, TodoOk;
  }

  lemma FinishKeeps(p: Params, s: Sys)
    requires p.Valid() && Inv(s, p.recovery.maxRetries)
    ensures Inv(Step(p, s, FinishRecovery(true)), p.recovery.maxRetries)
  {
    if s.job.Working? && s.job.todo == [] {
      SelectUnique(s.ledger, NotIn(Elems(s.job.done)));
    }
  }

  lemma InvStep(p: Params, s: Sys, ev: Event)
    requires p.Valid() && 1 <= p.recovery.maxRetries
    requires Inv(s, p.recovery.maxRetries) && Reliable(ev)
    ensures Inv(Step(p, s, ev), p.recovery.maxRetries)
  {
    match ev
    case BeginWatch(_, _, _, _) => BeginWatchKeeps(p, s, ev);
    case SelectBatch(lands) => SelectKeeps(p, s, lands);
    case BeginRecovery(latest, lands) => if s.job.Idle? { PruneKeeps(p, s, latest); }
    case Mark(_) => MarkKeeps(p, s);
    case Settle(_) => if s.job.Delivered? || s.job.Refused? { SettleKeeps(p, s); }
    case FinishRecovery(_) => FinishKeeps(p, s);
    case _ =>
  }

  lemma {:induction false} InvAlong(p: Params, s: Sys, evs: seq<Event>)
    requires p.Valid() && 1 <= p.recovery.maxRetries
    requires Inv(s, p.recovery.maxRetries) && forall ev :: ev in evs ==> Reliable(ev)
    ensures Inv(Exec(p, s, evs), p.recovery.maxRetries)
    decreases |evs|
  {
    hide Step;
    if evs != [] {
      assert evs[0] in evs;
      InvStep(p, s, evs[0]);
      InvAlong(p, Step(p, s, evs[0]), evs[1..]);
    }
  }

  /** In every reachable state: numbers are unique, retries never exceed the limit, Failed means
      exactly that the limit is reached (so Pending means it is not), and between recovery runs
      every entry is Pending or Failed. */
  lemma LedgerAutomaton(p: Params, cursor: nat, ledger: seq<Entry>, evs: seq<Event>)
    requires p.Valid() && 1 <= p.recovery.maxRetries
    requires UniqueKeys(ledger)
    requires forall e :: e in ledger ==>
             EntryOk(e, p.recovery.maxRetries) && (e.status == Pending || e.status == Failed)
    requires forall ev :: ev in evs ==> Reliable(ev)
    ensures var s := Exec(p, Initial(cursor, ledger), evs);
            && UniqueKeys(s.ledger)
            && (forall e :: e in s.ledger ==> e.retries <= p.recovery.maxRetries)
            && (forall e :: e in s.ledger ==> (e.status == Failed <==> e.retries == p.recovery.maxRetries))
            && (forall e :: e in s.ledger && e.status == Pending ==> e.retries < p.recovery.maxRetries)
            && (s.job == Idle ==> forall e :: e in s.ledger ==> e.status == Pending || e.status == Failed)
  {
    InvAlong(p, Initial(cursor, ledger), evs);
  }

  /** How a single step may change an entry that is in the ledger: it is kept as it is, pruned as too
      old, removed as handed over, or given a new status while it is the one being attempted. */
  lemma EntryFate(p: Params, s: Sys, ev: Event, e: Entry)
    requires p.Valid() && 1 <= p.recovery.maxRetries
    requires Inv(s, p.recovery.maxRetries) && Reliable(ev) && e in s.ledger
    ensures var s' := Step(p, s, ev);
            || e in s'.ledger
            || (ev.BeginRecovery? && e.number in s'.pruned)
            || (ev.FinishRecovery? && e.number in s.job.done)
            || (ev.Mark? && e.status == Pending && s.job.Todo() != [] && e == s.job.Todo()[0])
            || (ev.Settle? && e.status == Recovering && e.number == s.job.entry.number)
    ensures e.status == Failed ==>
              e in Step(p, s, ev).ledger || (ev.BeginRecovery? && e.number in Step(p, s, ev).pruned)
    ensures ev.BeginWatch? ==> e in Step(p, s, ev).ledger
  {
    match ev
    case BeginWatch(_, _, _, _) => BeginWatchKeeps(p, s, ev);
    case BeginRecovery(latest, lands) =>
      if s.job.Idle? && lands {
        PrunedOrKept(p, s, latest, e);
      }
    case Mark(_) =>
      if s.job.Working? && s.job.todo != [] {
        assert s.job.todo[0] in s.job.Todo();
        SetStatusEffect(s.ledger, s.job.todo[0], Recovering);
        if e.number == s.job.todo[0].number {
          UniqueEntry(s.ledger, e, s.job.todo[0]);
        }
      }
    case Settle(_) =>
      if s.job.Delivered? || s.job.Refused? {
        var x := s.job.entry.(status := Recovering);
        SetStatusEffect(s.ledger, x, if s.job.Delivered? then Recovered
          else Job.AfterFailure(s.job.entry, p.recovery.maxRetries));
        if e.number == x.number {
          UniqueEntry(s.ledger, e, x);
        }
      }
    case _ =>
  }

  lemma PrunedOrKept(p: Params, s: Sys, latest: nat, e: Entry)
    requires e in s.ledger && UniqueKeys(s.ledger)
    ensures e in PruneStep(p, s, latest).ledger || e.number in PruneStep(p, s, latest).pruned
  {
    var kept := PruneStep(p, s, latest).ledger;
    if e.number in Keys(kept) {
      var f :| f in kept && f.number == e.number;
      UniqueEntry(s.ledger, e, f);
    }
  }
}
