/** Safety of the recovery job when writes fail and the process dies between any two steps: an entry
    whose Recovering mark was written is not attempted again unless a Pending write lands on it. */
module CrashSafety {
  import opened Basics
  import opened Gaps
  import opened Ledger
  import opened Protocol
  import Job = Recovery

  /** One entry per number, in the ledger and among the entries still to be attempted. */
  ghost predicate WellFormed(s: Sys) {
    UniqueKeys(s.ledger) && UniqueKeys(s.job.Todo())
  }

  /** The entry of number n is in the ledger and is not waiting, in the file or in memory. */
  ghost predicate Parked(s: Sys, n: nat) {
    && n in Keys(s.ledger)
    && (forall e :: e in s.ledger && e.number == n ==> e.status != Pending)
    && (forall e :: e in s.job.Todo() ==> e.number != n)
  }

  /** A write of status Pending lands on the entry of number n. */
  ghost predicate PendingLands(p: Params, s: Sys, ev: Event, n: nat) {
    && ev == Settle(true) && s.job.Refused? && s.job.entry.number == n
    && Job.AfterFailure(s.job.entry, p.recovery.maxRetries) == Pending
  }

  /** Along the run the entry stays in the ledger and no Pending write lands on it. */
  ghost predicate Undisturbed(p: Params, s: Sys, evs: seq<Event>, n: nat)
    requires p.Valid()
    decreases |evs|
  {
    && n in Keys(s.ledger)
    && (evs == [] || (!PendingLands(p, s, evs[0], n) && Undisturbed(p, Step(p, s, evs[0]), evs[1..], n)))
  }

  /** Along the run the entry stays in the ledger. */
  ghost predicate Stays(p: Params, s: Sys, evs: seq<Event>, n: nat)
    requires p.Valid()
    decreases |evs|
  {
    n in Keys(s.ledger) && (evs == [] || Stays(p, Step(p, s, evs[0]), evs[1..], n))
  }

  lemma WellFormedStep(p: Params, s: Sys, ev: Event)
    requires p.Valid() && WellFormed(s)
    ensures WellFormed(Step(p, s, ev))
  {
    match ev
    case BeginWatch(_, _, _, _) => SavingGapsKeepsUnique(s.ledger, FetchedBy(p, s, ev));
    case BeginRecovery(latest, _) =>
      SelectUnique(s.ledger, NotOlder(SatSub(p.network.window.Confirmed(latest), p.recovery.maxBlockAge)));
    case SelectBatch(_) =>
      if s.job.Selecting? {
        Job.BatchIsOldest(s.ledger, p.recovery, s.job.confirmed);
        Job.UniqueNumbers(Job.Batch(s.ledger, p.recovery, s.job.confirmed));
      }
    case Mark(lands) =>
      if s.job.Working? && s.job.todo != [] {
        Job.WriteStatusEffect(s.ledger, s.job.todo[0].number, Recovering, lands);
      }
    case Settle(lands) =>
      if s.job.Delivered? || s.job.Refused? {
        Job.WriteStatusEffect(s.ledger, s.job.entry.number,
          if s.job.Delivered? then Recovered else Job.AfterFailure(s.job.entry, p.recovery.maxRetries), lands);
      }
    case FinishRecovery(_) =>
      if s.job.Working? {
        SelectUnique(s.ledger, NotIn(Elems(s.job.done)));
      }
    case _ =>
  }

  lemma WrittenStaysParked(l: seq<Entry>, l': seq<Entry>, x: nat, status: Status, lands: bool, n: nat)
    requires UniqueKeys(l) && l' == Job.WriteStatus(l, x, status, lands)
    requires forall e :: e in l && e.number == n ==> e.status != Pending
    requires lands && x == n ==> status != Pending
    ensures Keys(l') == Keys(l) && forall e :: e in l' && e.number == n ==> e.status != Pending
  {
    Job.WriteStatusEffect(l, x, status, lands);
    hide Job.WriteStatus, UniqueKeys, Keys;
  }

  /** A parked entry is not selected. */
  lemma SelectsOthers(p: Params, s: Sys, lands: bool, n: nat)
    requires p.Valid() && WellFormed(s) && Parked(s, n)
    ensures Parked(Step(p, s, SelectBatch(lands)), n)
  {
    if s.job.Selecting? && lands {
      var batch := Job.Batch(s.ledger, p.recovery, s.job.confirmed);
      BatchAvoids(s.ledger, p.recovery, s.job.confirmed, n);
      assert Step(p, s, SelectBatch(lands)) == s.(job := Working(batch, []));
      hide Job.Batch, UniqueKeys, Keys, Step;
    } else {
      hide Job.Batch, UniqueKeys, Keys;
    }
  }

  lemma BatchAvoids(l: seq<Entry>, cfg: Job.Config, confirmed: nat, n: nat)
    requires UniqueKeys(l) && forall e :: e in l && e.number == n ==> e.status != Pending
    ensures forall e :: e in Job.Batch(l, cfg, confirmed) ==> e.number != n
  {
    Job.BatchIsOldest(l, cfg, confirmed);
    hide Job.Batch, UniqueKeys;
  }

  lemma GapsLeaveParked(p: Params, s: Sys, ev: Event, n: nat)
    requires p.Valid() && ev.BeginWatch? && Parked(s, n)
    ensures Parked(Step(p, s, ev), n)
  {
    AddMissingKeeps(s.ledger, DetectMissing(FetchedBy(p, s, ev)));
    hide DetectMissing, AddMissing, Keys;
  }

  /** One undisturbed step keeps a parked entry parked and does not attempt it. */
  lemma ParkedStep(p: Params, s: Sys, ev: Event, n: nat)
    requires p.Valid() && WellFormed(s) && Parked(s, n)
    requires !PendingLands(p, s, ev, n) && n in Keys(Step(p, s, ev).ledger)
    ensures Parked(Step(p, s, ev), n)
    ensures var s' := Step(p, s, ev);
            || s'.attempted == s.attempted
            || (s'.attempted == s.attempted + [s.job.Todo()[0].number] && s.job.Todo()[0].number != n)
  {
    match ev
    case BeginWatch(_, _, _, _) => GapsLeaveParked(p, s, ev, n);
    case SelectBatch(lands) => SelectsOthers(p, s, lands, n);
    case Mark(lands) =>
      hide Job.WriteStatus, Keys, UniqueKeys;
      if s.job.Working? && s.job.todo != [] {
        assert s.job.todo[0] in s.job.todo;
        WrittenStaysParked(s.ledger, Step(p, s, ev).ledger, s.job.todo[0].number, Recovering, lands, n);
      }
    case Settle(lands) =>
      hide Job.WriteStatus, Keys, UniqueKeys;
      if s.job.Delivered? || s.job.Refused? {
        WrittenStaysParked(s.ledger, Step(p, s, ev).ledger, s.job.entry.number,
          if s.job.Delivered? then Recovered else Job.AfterFailure(s.job.entry, p.recovery.maxRetries), lands, n);
      }
    case _ =>
  }

  /** A parked entry is never attempted again, through any failed writes and crashes, unless it is
      dropped from the ledger or a Pending write lands on it. */
  lemma {:induction false} ParkedIsNotAttempted(p: Params, s: Sys, evs: seq<Event>, n: nat)
    requires p.Valid() && WellFormed(s) && Parked(s, n) && Undisturbed(p, s, evs, n)
    ensures var s' := Exec(p, s, evs);
            && s.attempted <= s'.attempted
            && n !in s'.attempted[|s.attempted|..]
    decreases |evs|
  {
    hide Step;
    if evs != [] {
      var s1 := Step(p, s, evs[0]);
      WellFormedStep(p, s, evs[0]);
      ParkedStep(p, s, evs[0], n);
      ParkedIsNotAttempted(p, s1, evs[1..], n);
      var s' := Exec(p, s1, evs[1..]);
      assert s'.attempted[|s.attempted|..] == s1.attempted[|s.attempted|..] + s'.attempted[|s1.attempted|..];
    }
  }

  /** Once the Recovering mark of an attempt has landed, its entry is parked. */
  lemma LandedMarkParks(p: Params, s: Sys)
    requires p.Valid() && WellFormed(s) && s.job.Working? && s.job.todo != []
    requires s.job.todo[0].number in Keys(s.ledger)
    ensures Parked(Step(p, s, Mark(true)), s.job.todo[0].number)
  {
    Job.WriteStatusEffect(s.ledger, s.job.todo[0].number, Recovering, true);
  }

  /** Parked, and no request for n is under way: then no Pending write on n is due either. */
  ghost predicate Quiet(s: Sys, n: nat) {
    Parked(s, n) && !((s.job.Marked? || s.job.Refused?) && s.job.entry.number == n)
  }

  lemma QuietStep(p: Params, s: Sys, ev: Event, n: nat)
    requires p.Valid() && WellFormed(s) && Quiet(s, n) && n in Keys(Step(p, s, ev).ledger)
    ensures Quiet(Step(p, s, ev), n)
    ensures var s' := Step(p, s, ev);
            s'.redelivered == s.redelivered || (s.job.Marked? && s'.redelivered == s.redelivered + [s.job.entry.number])
  {
    ParkedStep(p, s, ev, n);
    if ev.Mark? && s.job.Working? && s.job.todo != [] {
      assert s.job.todo[0] in s.job.Todo();
    }
  }

  /** A quiet entry is neither attempted nor handed over, whatever happens, while it stays in the ledger. */
  lemma {:induction false} QuietIsNotRedelivered(p: Params, s: Sys, evs: seq<Event>, n: nat)
    requires p.Valid() && WellFormed(s) && Quiet(s, n) && Stays(p, s, evs, n)
    ensures var s' := Exec(p, s, evs);
            && s.redelivered <= s'.redelivered && n !in s'.redelivered[|s.redelivered|..]
            && s.attempted <= s'.attempted && n !in s'.attempted[|s.attempted|..]
    decreases |evs|
  {
    hide Step;
    if evs != [] {
      var s1 := Step(p, s, evs[0]);
      WellFormedStep(p, s, evs[0]);
      QuietStep(p, s, evs[0], n);
      ParkedStep(p, s, evs[0], n);
      QuietIsNotRedelivered(p, s1, evs[1..], n);
      hide WellFormed, Quiet, Parked;
      var s' := Exec(p, s1, evs[1..]);
      TwoTails(s.redelivered, s1.redelivered, s'.redelivered);
      TwoTails(s.attempted, s1.attempted, s'.attempted);
    }
  }

  lemma TwoTails(before: seq<nat>, now: seq<nat>, later: seq<nat>)
    requires before <= now <= later
    ensures later[|before|..] == now[|before|..] + later[|now|..]
  {
  }

  /** The price of parking: with the job at rest, only Pending entries are ever attempted again. An entry
      left Recovering or Recovered by a crash or a failed write is not, while it stays in the ledger. */
  lemma OnlyPendingIsAttempted(p: Params, s: Sys, evs: seq<Event>, n: nat)
    requires p.Valid() && UniqueKeys(s.ledger) && s.job == Idle && Stays(p, s, evs, n)
    ensures s.attempted <= Exec(p, s, evs).attempted
    ensures n in Exec(p, s, evs).attempted[|s.attempted|..] ==> Job.HasPending(s.ledger, n)
  {
    AttemptedGrows(p, s, evs);
    if !Job.HasPending(s.ledger, n) {
      assert Quiet(s, n);
      QuietIsNotRedelivered(p, s, evs, n);
    }
  }

  lemma {:induction false} AttemptedGrows(p: Params, s: Sys, evs: seq<Event>)
    requires p.Valid()
    ensures s.attempted <= Exec(p, s, evs).attempted
    decreases |evs|
  {
    if evs != [] {
      var s1 := Step(p, s, evs[0]);
      assert s.attempted <= s1.attempted;
      hide Step;
      AttemptedGrows(p, s1, evs[1..]);
    }
  }

  /** So a crash during an attempt whose Recovering mark landed strands the entry. */
  lemma CrashStrands(p: Params, s: Sys, evs: seq<Event>)
    requires p.Valid() && WellFormed(s) && s.job.Working? && s.job.todo != []
    requires s.job.todo[0].number in Keys(s.ledger)
    requires Stays(p, Step(p, Step(p, s, Mark(true)), Crash), evs, s.job.todo[0].number)
    ensures var n, dead := s.job.todo[0].number, Step(p, Step(p, s, Mark(true)), Crash);
            && dead.attempted == s.attempted + [n]
            && dead.attempted <= Exec(p, dead, evs).attempted
            && n !in Exec(p, dead, evs).attempted[|dead.attempted|..]
  {
    var n, marked := s.job.todo[0].number, Step(p, s, Mark(true));
    LandedMarkParks(p, s);
    WellFormedStep(p, s, Mark(true));
    WellFormedStep(p, marked, Crash);
    assert marked.attempted == s.attempted + [n];
    var dead := Step(p, marked, Crash);
    assert Quiet(dead, n) && dead.attempted == marked.attempted;
    hide Step, Exec, WellFormed, Quiet, Stays;
    QuietIsNotRedelivered(p, dead, evs, n);
  }

  /** A recovered block whose Recovering mark landed is handed over only once from that entry, even
      if both the Recovered write and the removal fail and the process dies at any moment. */
  lemma NoSecondDelivery(p: Params, s: Sys, evs: seq<Event>)
    requires p.Valid() && WellFormed(s) && s.job.Marked? && Parked(s, s.job.entry.number)
    requires Stays(p, Step(p, s, Fetch(Job.Found)), evs, s.job.entry.number)
    ensures var n := s.job.entry.number;
            var once := Step(p, s, Fetch(Job.Found));
            var s' := Exec(p, once, evs);
            && once.redelivered == s.redelivered + [n]
            && once.redelivered <= s'.redelivered
            && n !in s'.redelivered[|once.redelivered|..]
  {
    var once := Step(p, s, Fetch(Job.Found));
    WellFormedStep(p, s, Fetch(Job.Found));
    QuietIsNotRedelivered(p, once, evs, s.job.entry.number);
  }

  /** Any one landed write protects: after a block of a batch of its own was handed over and the run
      ended, its entry is Pending exactly if the Recovering mark, the Recovered mark and the removal
      all failed. */
  lemma PendingAfterDeliveryIff(p: Params, s: Sys, e: Entry, mark: bool, settle: bool, remove: bool)
    requires p.Valid() && s.job == Working([e], []) && e in s.ledger && e.status == Pending && UniqueKeys(s.ledger)
    ensures var s' := Step(p, Exec(p, s, [Mark(mark), Fetch(Job.Found), Settle(settle)]), FinishRecovery(remove));
            && s'.job == Idle && s'.redelivered == s.redelivered + [e.number]
            && (Job.HasPending(s'.ledger, e.number) <==> !mark && !settle && !remove)
  {
    var marked := Job.WriteStatus(s.ledger, e.number, Recovering, mark);
    var settled := Job.WriteStatus(marked, e.number, Recovered, settle);
    ExecThree(p, s, Mark(mark), Fetch(Job.Found), Settle(settle));
    Job.WriteAt(s.ledger, e, Recovering, mark);
    var m := Job.Write(e, Recovering, mark);
    Job.WriteAt(marked, m, Recovered, settle);
    var r := Job.Write(m, Recovered, settle);
    forall x | x in settled && x.number == e.number ensures x == r {
      UniqueEntry(settled, x, r);
    }
    assert e.number in [e.number];
    hide Job.WriteStatus, UniqueKeys;
  }

  /** Entries still to be attempted stay in the ledger. */
  ghost predicate TodoThere(s: Sys) {
    forall e :: e in s.job.Todo() ==> e.number in Keys(s.ledger)
  }

  lemma TodoThereStep(p: Params, s: Sys, ev: Event)
    requires p.Valid() && WellFormed(s) && TodoThere(s)
    ensures TodoThere(Step(p, s, ev))
  {
    match ev
    case BeginWatch(_, _, _, _) => AddMissingKeeps(s.ledger, DetectMissing(FetchedBy(p, s, ev)));
    case SelectBatch(_) =>
      if s.job.Selecting? {
        Job.BatchIsOldest(s.ledger, p.recovery, s.job.confirmed);
      }
    case Mark(lands) =>
      if s.job.Working? && s.job.todo != [] {
        Job.WriteStatusEffect(s.ledger, s.job.todo[0].number, Recovering, lands);
      }
    case Settle(lands) =>
      if s.job.Delivered? || s.job.Refused? {
        Job.WriteStatusEffect(s.ledger, s.job.entry.number,
          if s.job.Delivered? then Recovered else Job.AfterFailure(s.job.entry, p.recovery.maxRetries), lands);
      }
    case _ =>
  }

  lemma {:induction false} WellFormedAlong(p: Params, s: Sys, evs: seq<Event>)
    requires p.Valid() && WellFormed(s) && TodoThere(s)
    ensures WellFormed(Exec(p, s, evs)) && TodoThere(Exec(p, s, evs))
    decreases |evs|
  {
    hide Step, WellFormed, TodoThere;
    if evs != [] {
      WellFormedStep(p, s, evs[0]);
      TodoThereStep(p, s, evs[0]);
      WellFormedAlong(p, Step(p, s, evs[0]), evs[1..]);
    }
  }

  /** Over whole runs: start from any ledger with unique keys and let anything happen, failed writes
      and crashes included. If then a Recovering mark lands and the block is handed over, it is not
      handed over again from that entry, whatever happens next. */
  lemma DeliveredOnce(p: Params, cursor: nat, ledger: seq<Entry>, before: seq<Event>, later: seq<Event>)
    requires p.Valid() && UniqueKeys(ledger)
    requires var s := Exec(p, Initial(cursor, ledger), before); s.job.Working? && s.job.todo != []
    requires var s := Exec(p, Initial(cursor, ledger), before);
             Stays(p, Step(p, Step(p, s, Mark(true)), Fetch(Job.Found)), later, s.job.todo[0].number)
    ensures var s := Exec(p, Initial(cursor, ledger), before);
            var n := s.job.todo[0].number;
            var s' := Exec(p, s, [Mark(true), Fetch(Job.Found)] + later);
            && s.redelivered + [n] <= s'.redelivered
            && n !in s'.redelivered[|s.redelivered| + 1..]
  {
    var s := Exec(p, Initial(cursor, ledger), before);
    WellFormedAlong(p, Initial(cursor, ledger), before);
    assert s.job.todo[0] in s.job.Todo();
    LandedMarkParks(p, s);
    WellFormedStep(p, s, Mark(true));
    var marked := Step(p, s, Mark(true));
    assert marked.job.Marked? && marked.job.entry == s.job.todo[0] && marked.redelivered == s.redelivered;
    ExecTwo(p, s, Mark(true), Fetch(Job.Found));
    ExecConcat(p, s, [Mark(true), Fetch(Job.Found)], later);
    hide Step, Exec, WellFormed, Parked, Stays;
    NoSecondDelivery(p, marked, later);
  }
}
