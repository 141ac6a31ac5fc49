/** The two jobs together: while all writes land and runs end well, the watcher and the recovery job
    hand every block over at most once between them. */
module JointDelivery {
  import opened Basics
  import opened Gaps
  import opened Ledger
  import opened LedgerStatus
  import opened Protocol
  import opened Watcher
  import Buffer = ReorderBuffer
  import ExactlyOnce
  import Job = Recovery
  import Refinement

  /** The greatest number a run may have dealt with. */
  function Bound(s: Sys): nat {
    if s.watch.Firing? then s.watch.tip else s.cursor
  }

  ghost predicate QueueApart(s: Sys) {
    s.watch.Firing? ==> forall n :: n in s.watch.queue ==> n !in Keys(s.ledger) && n !in s.redelivered
  }

  /** Numbers in the ledger are not fired, numbers handed over by the recovery job neither; what was
      handed over and is still in the ledger is about to be removed. */
  ghost predicate Apart(s: Sys) {
    && (forall n :: n in Keys(s.ledger) ==> n <= Bound(s) && n !in s.fired)
    && (forall n :: n in s.redelivered ==> n <= Bound(s) && n !in s.fired)
    && QueueApart(s)
    && Distinct(s.redelivered)
    && (forall n :: n in s.redelivered && n in Keys(s.ledger) ==>
          (s.job.Delivered? && s.job.entry.number == n) || n in s.job.Done())
  }

  ghost predicate Joint(p: Params, s: Sys) {
    ExactlyOnce.Inv(s) && Inv(s, p.recovery.maxRetries) && Apart(s)
  }

  /** What the run fetches, and what it finds missing, lies beyond the cursor. */
  lemma GapsInWindow(p: Params, s: Sys, ev: Event, n: nat)
    requires p.Valid() && ev.BeginWatch? && ExactlyOnce.Orderly(p, s, ev)
    ensures n in DetectMissing(FetchedBy(p, s, ev)) ==>
              s.cursor < n <= p.network.window.Confirmed(ev.latest) && n !in Handed(FetchedBy(p, s, ev))
  {
    var blocks := FetchedBy(p, s, ev);
    if n in DetectMissing(blocks) {
      GapsAreBracketed(blocks, n);
      var a, b :| Some(a) in blocks && Some(b) in blocks && a < n < b;
      IsHanded(blocks, a);
      IsHanded(blocks, b);
      HandedNumbers(blocks, n);
    }
  }

  lemma IsHanded(blocks: seq<Block>, n: nat)
    requires Some(n) in blocks
    ensures n in Handed(blocks)
  {
    var i :| 0 <= i < |blocks| && blocks[i] == Some(n);
    assert Handed(blocks)[i] == n;
  }

  lemma QueueInWindow(p: Params, s: Sys, ev: Event, n: nat)
    requires p.Valid() && ev.BeginWatch? && ExactlyOnce.Orderly(p, s, ev)
    requires n in Buffer.NumbersOf(Buffer.Fire(StartOf(p, s, ev.latest), ev.arrivals))
    ensures n in Handed(FetchedBy(p, s, ev)) && s.cursor < n
  {
    QueueNumbers(p, s, ev);
    hide Buffer.Fire, Buffer.NumbersOf, Handed;
    assert n in Elems(Handed(FetchedBy(p, s, ev)));
  }

  lemma BegunIs(p: Params, s: Sys, ev: Event)
    requires p.Valid() && ev.BeginWatch? && s.watch.Resting?
    ensures var s', gaps := BeginWatchStep(p, s, ev), DetectMissing(FetchedBy(p, s, ev));
            && s'.job == s.job && s'.fired == s.fired && s'.redelivered == s.redelivered && s'.cursor == s.cursor
            && (s'.watch.Resting? ==> s'.ledger == s.ledger)
            && (Keys(s'.ledger) == Keys(s.ledger) || Keys(s'.ledger) == Keys(s.ledger) + Elems(gaps))
            && (s'.watch.Firing? ==>
                  && s'.watch.queue == Buffer.NumbersOf(Buffer.Fire(StartOf(p, s, ev.latest), ev.arrivals))
                  && s'.watch.tip == p.network.window.Confirmed(ev.latest))
  {
    AddMissingKeeps(s.ledger, DetectMissing(FetchedBy(p, s, ev)));
    hide DetectMissing, AddMissing, Buffer.Fire, Buffer.NumbersOf, Keys;
  }

  lemma BeginApart(p: Params, s: Sys, ev: Event)
    requires p.Valid() && ev.BeginWatch? && s.watch.Resting? && Apart(s) && ExactlyOnce.Orderly(p, s, ev)
    requires ExactlyOnce.FiredUpTo(s, s.cursor)
    ensures Apart(BeginWatchStep(p, s, ev))
  {
    var s' := BeginWatchStep(p, s, ev);
    var gaps := DetectMissing(FetchedBy(p, s, ev));
    var queue := Buffer.NumbersOf(Buffer.Fire(StartOf(p, s, ev.latest), ev.arrivals));
    assert s.cursor <= p.network.window.Confirmed(ev.latest);
    BegunIs(p, s, ev);
    hide *;
    AllBeyond(p, s, ev, Elems(gaps), queue);
    GrownApart(s, s', Elems(gaps), queue, p.network.window.Confirmed(ev.latest));
  }

  lemma AllBeyond(p: Params, s: Sys, ev: Event, gaps: set<nat>, queue: seq<nat>)
    requires p.Valid() && ev.BeginWatch? && ExactlyOnce.Orderly(p, s, ev)
    requires gaps == Elems(DetectMissing(FetchedBy(p, s, ev)))
    requires queue == Buffer.NumbersOf(Buffer.Fire(StartOf(p, s, ev.latest), ev.arrivals))
    ensures forall n :: n in gaps ==> s.cursor < n <= p.network.window.Confirmed(ev.latest) && n !in queue
    ensures forall n :: n in queue ==> s.cursor < n
  {
    hide *;
    forall n | n in gaps ensures s.cursor < n <= p.network.window.Confirmed(ev.latest) && n !in queue {
      GapsBeyond(p, s, ev, n);
    }
    forall n | n in queue ensures s.cursor < n {
      QueueInWindow(p, s, ev, n);
    }
  }

  lemma GapsBeyond(p: Params, s: Sys, ev: Event, n: nat)
    requires p.Valid() && ev.BeginWatch? && ExactlyOnce.Orderly(p, s, ev)
    requires n in Elems(DetectMissing(FetchedBy(p, s, ev)))
    ensures s.cursor < n <= p.network.window.Confirmed(ev.latest)
    ensures n !in Buffer.NumbersOf(Buffer.Fire(StartOf(p, s, ev.latest), ev.arrivals))
  {
    GapsInWindow(p, s, ev, n);
    hide DetectMissing, Buffer.Fire, Handed, FetchedBy, ExactlyOnce.Orderly;
    if n in Buffer.NumbersOf(Buffer.Fire(StartOf(p, s, ev.latest), ev.arrivals)) {
      QueueInWindow(p, s, ev, n);
    }
  }

  /** New gaps and a new queue beyond the cursor, apart from each other. */
  lemma GrownApart(s: Sys, s': Sys, gaps: set<nat>, queue: seq<nat>, tip: nat)
    requires Apart(s) && s.watch.Resting? && ExactlyOnce.FiredUpTo(s, s.cursor) && s.cursor <= tip
    requires s'.job == s.job && s'.fired == s.fired && s'.redelivered == s.redelivered && s'.cursor == s.cursor
    requires s'.watch.Resting? ==> s'.ledger == s.ledger
    requires Keys(s'.ledger) == Keys(s.ledger) || Keys(s'.ledger) == Keys(s.ledger) + gaps
    requires s'.watch.Firing? ==> s'.watch.queue == queue && s'.watch.tip == tip
    requires forall n :: n in gaps ==> s.cursor < n <= tip && n !in queue
    requires forall n :: n in queue ==> s.cursor < n
    ensures Apart(s')
  {
    hide Keys;
  }

  lemma FireApart(p: Params, s: Sys)
    requires s.watch.Firing? && s.watch.queue != [] && Apart(s)
    ensures Apart(FireStep(p, s))
  {
    var n := s.watch.queue[0];
    assert n in s.watch.queue;
    hide Keys;
  }

  /** A step of the recovery job that keeps the numbers in the ledger, or drops some. */
  lemma ShrinksApart(s: Sys, s': Sys)
    requires Apart(s) && Keys(s'.ledger) <= Keys(s.ledger)
    requires s'.watch == s.watch && s'.cursor == s.cursor && s'.fired == s.fired && s'.redelivered == s.redelivered
    requires forall n :: n in s.redelivered && n in Keys(s'.ledger) ==>
               (s'.job.Delivered? && s'.job.entry.number == n) || n in s'.job.Done()
    ensures Apart(s')
  {
    hide Keys;
  }

  /** A block is delivered only once: were it delivered before, its entry would be marked Recovered. */
  lemma DeliverApart(p: Params, s: Sys)
    requires p.Valid() && Joint(p, s) && s.job.Marked?
    ensures Apart(Step(p, s, Fetch(Job.Found)))
  {
    var e := s.job.entry;
    var s' := Step(p, s, Fetch(Job.Found));
    assert s'.redelivered == s.redelivered + [e.number] && s'.job == Delivered(e, s.job.todo, s.job.done);
    assert s'.ledger == s.ledger && s'.fired == s.fired && s'.watch == s.watch && s'.cursor == s.cursor;
    assert e.(status := Recovering) in s.ledger && e.number in Keys(s.ledger);
    assert e.number !in s.redelivered by {
      assert e.number !in s.job.Done();
    }
    hide Keys, Step, Inv;
    DistinctAppend(s.redelivered, [e.number]);
  }

  lemma WritingApart(p: Params, s: Sys, ev: Event)
    requires p.Valid() && Joint(p, s) && Reliable(ev) && (ev.Mark? || ev.Settle?)
    ensures Apart(Step(p, s, ev))
  {
    var s' := Step(p, s, ev);
    WritingKeeps(p, s, ev);
    hide Step, Keys, Inv, ExactlyOnce.Inv;
    if s' != s {
      ShrinksApart(s, s');
    }
  }

  ghost predicate KeepsNumbers(s: Sys, s': Sys) {
    && Keys(s'.ledger) == Keys(s.ledger) && s'.watch == s.watch && s'.cursor == s.cursor
    && s'.fired == s.fired && s'.redelivered == s.redelivered
    && (s' != s ==> forall n :: (s.job.Delivered? && s.job.entry.number == n) || n in s.job.Done() ==>
          (s'.job.Delivered? && s'.job.entry.number == n) || n in s'.job.Done())
  }

  lemma MarkKeeps(p: Params, s: Sys)
    requires p.Valid() && UniqueKeys(s.ledger)
    ensures KeepsNumbers(s, Step(p, s, Mark(true)))
  {
    if s.job.Working? && s.job.todo != [] {
      Job.WriteStatusEffect(s.ledger, s.job.todo[0].number, Recovering, true);
    }
    hide Job.WriteStatus, Keys, UniqueKeys;
  }

  lemma SettleKeeps(p: Params, s: Sys)
    requires p.Valid() && UniqueKeys(s.ledger)
    ensures KeepsNumbers(s, Step(p, s, Settle(true)))
  {
    if s.job.Delivered? || s.job.Refused? {
      Job.WriteStatusEffect(s.ledger, s.job.entry.number,
        if s.job.Delivered? then Recovered else Job.AfterFailure(s.job.entry, p.recovery.maxRetries), true);
    }
    hide Job.WriteStatus, Keys, UniqueKeys;
  }

  lemma WritingKeeps(p: Params, s: Sys, ev: Event)
    requires p.Valid() && UniqueKeys(s.ledger) && Reliable(ev) && (ev.Mark? || ev.Settle?)
    ensures KeepsNumbers(s, Step(p, s, ev))
  {
    MarkKeeps(p, s);
    SettleKeeps(p, s);
    hide KeepsNumbers, Step, Keys, UniqueKeys;
  }

  lemma DroppingApart(p: Params, s: Sys, ev: Event)
    requires p.Valid() && Joint(p, s) && Reliable(ev) && (ev.BeginRecovery? || ev.FinishRecovery?)
    ensures Apart(Step(p, s, ev))
  {
    var s' := Step(p, s, ev);
    if s' != s {
      DroppedIs(p, s, ev);
      hide Step, Keys, Inv, ExactlyOnce.Inv;
      ShrinksApart(s, s');
    }
  }

  lemma DroppedIs(p: Params, s: Sys, ev: Event)
    requires p.Valid() && Reliable(ev) && (ev.BeginRecovery? || ev.FinishRecovery?) && Step(p, s, ev) != s
    ensures var s' := Step(p, s, ev);
            && Keys(s'.ledger) <= Keys(s.ledger) && s'.watch == s.watch && s'.cursor == s.cursor
            && s'.fired == s.fired && s'.redelivered == s.redelivered && !s.job.Delivered?
            && (forall n :: n in s.job.Done() ==> n !in Keys(s'.ledger))
  {
  }

  lemma JointStep(p: Params, s: Sys, ev: Event)
    requires p.Valid() && 1 <= p.recovery.maxRetries && Joint(p, s)
    requires Reliable(ev) && ExactlyOnce.Orderly(p, s, ev)
    ensures Joint(p, Step(p, s, ev))
  {
    ExactlyOnce.InvStep(p, s, ev);
    InvStep(p, s, ev);
    hide Inv, ExactlyOnce.Orderly;
    match ev
    case BeginWatch(_, _, _, _) => if s.watch.Resting? { BeginApart(p, s, ev); }
    case FireNext => if s.watch.Firing? && s.watch.queue != [] { FireApart(p, s); }
    case CommitCursor(_) => hide Keys;
    case SelectBatch(_) => hide Keys;
    case Fetch(answer) =>
      if s.job.Marked? {
        if answer.Found? {
          DeliverApart(p, s);
        } else {
          ShrinksApart(s, Step(p, s, ev));
        }
      }
    case BeginRecovery(_, _) => DroppingApart(p, s, ev);
    case FinishRecovery(_) => DroppingApart(p, s, ev);
    case _ => WritingApart(p, s, ev);
  }

  lemma {:induction false} JointAlong(p: Params, s: Sys, evs: seq<Event>)
    requires p.Valid() && 1 <= p.recovery.maxRetries && Joint(p, s)
    requires ExactlyOnce.OrderlyAlong(p, s, evs) && forall ev :: ev in evs ==> Reliable(ev)
    ensures Joint(p, Exec(p, s, evs))
    decreases |evs|
  {
    hide Step, Joint, ExactlyOnce.Orderly, Reliable;
    if evs != [] {
      assert evs[0] in evs;
      JointStep(p, s, evs[0]);
      JointAlong(p, Step(p, s, evs[0]), evs[1..]);
    }
  }

  /** Exactly once, both jobs together. Start at rest with entries at or below the cursor; let all writes
      land, runs end well, tips not go back, and the jobs interleave in any way. Then the watcher fires
      in strictly ascending order, the recovery job hands no block over twice, and no block is handed
      over by both. */
  lemma AtMostOnceTogether(p: Params, cursor: nat, ledger: seq<Entry>, evs: seq<Event>)
    requires p.Valid() && 1 <= p.recovery.maxRetries && UniqueKeys(ledger)
    requires forall e :: e in ledger ==>
               e.number <= cursor && EntryOk(e, p.recovery.maxRetries) && (e.status == Pending || e.status == Failed)
    requires ExactlyOnce.OrderlyAlong(p, Initial(cursor, ledger), evs) && forall ev :: ev in evs ==> Reliable(ev)
    ensures var s := Exec(p, Initial(cursor, ledger), evs);
            Ascending(s.fired) && Distinct(s.redelivered) && forall n :: n in s.redelivered ==> n !in s.fired
  {
    JointAlong(p, Initial(cursor, ledger), evs);
    hide Exec, Keys;
  }

  // ---------------------------------------------------------------------------------------
  // When a run does not end well.

  lemma {:induction false} FiringKeeps(p: Params, s: Sys, k: nat)
    requires p.Valid()
    ensures var s' := Exec(p, s, Refinement.FireEvents(k));
            s'.ledger == s.ledger && s'.cursor == s.cursor && s'.job == s.job
  {
    if k > 0 {
      FiringKeeps(p, s, k - 1);
      var mid := Exec(p, s, Refinement.FireEvents(k - 1));
      ExecConcat(p, s, Refinement.FireEvents(k - 1), [FireNext]);
      ExecOne(p, mid, FireNext);
      hide Exec;
    }
  }

  /** A run records a gap n, hands over any number of its blocks and ends without moving the cursor. The
      next run then has n in its queue, to be fired although its entry is Pending, if and only if its
      answer holds n. */
  lemma AbandonedGapIff(p: Params, s: Sys, first: Event, k: nat, second: Event, n: nat)
    requires p.Valid() && s.watch.Resting? && first.BeginWatch? && second.BeginWatch?
    requires p.network.storeBlocks || p.network.recoveryEnabled
    requires first.gapsLand && second.gapsLand
    requires n in DetectMissing(FetchedBy(p, s, first)) && n !in Keys(s.ledger)
    requires ComesBack(p, Exec(p, s, [first] + Refinement.FireEvents(k) + [AbortWatch]), second)
    ensures var s1 := Exec(p, s, [first] + Refinement.FireEvents(k) + [AbortWatch]);
            var s2 := Step(p, s1, second);
            && s1.cursor == s.cursor && s2.watch.Firing? && Job.HasPending(s2.ledger, n)
            && (n in s2.watch.queue <==> Some(n) in FetchedBy(p, s1, second))
  {
    var s1 := Exec(p, s, [first] + Refinement.FireEvents(k) + [AbortWatch]);
    AbandonedState(p, s, first, k);
    AddMissingKeeps(s.ledger, DetectMissing(FetchedBy(p, s, first)));
    AddMissingKeeps(s1.ledger, DetectMissing(FetchedBy(p, s1, second)));
    assert NewEntry(n) in s1.ledger;
    GapsAreBracketed(FetchedBy(p, s, first), n);
    QueueNumbers(p, s1, second);
    HandedNumbers(FetchedBy(p, s1, second), n);
    var s2 := Step(p, s1, second);
    assert s2.watch == Firing(StartOf(p, s1, second.latest), p.network.window.Confirmed(second.latest),
                              Buffer.NumbersOf(Buffer.Fire(StartOf(p, s1, second.latest), second.arrivals)));
    assert s2.ledger == AddMissing(s1.ledger, DetectMissing(FetchedBy(p, s1, second)));
    hide Step, Exec, Buffer.Fire, Buffer.NumbersOf, DetectMissing, AddMissing, Handed, Keys;
    assert NewEntry(n) in s2.ledger;
    assert n in s2.watch.queue <==> n in Elems(s2.watch.queue);
    assert n in Handed(FetchedBy(p, s1, second)) <==> n in Elems(Handed(FetchedBy(p, s1, second)));
  }

  lemma AbandonedState(p: Params, s: Sys, first: Event, k: nat)
    requires p.Valid() && s.watch.Resting? && first.BeginWatch? && first.gapsLand && p.network.RecordsGaps()
    ensures var s1 := Exec(p, s, [first] + Refinement.FireEvents(k) + [AbortWatch]);
            && s1.watch == Resting && s1.cursor == s.cursor
            && s1.ledger == AddMissing(s.ledger, DetectMissing(FetchedBy(p, s, first)))
  {
    var begun := Step(p, s, first);
    var fires := Refinement.FireEvents(k);
    assert begun.ledger == AddMissing(s.ledger, DetectMissing(FetchedBy(p, s, first))) && begun.cursor == s.cursor;
    ExecOne(p, s, first);
    FiringKeeps(p, begun, k);
    ExecConcat(p, s, [first], fires);
    ExecConcat(p, s, [first] + fires, [AbortWatch]);
    ExecOne(p, Exec(p, begun, fires), AbortWatch);
    var fired := Exec(p, begun, fires);
    assert Step(p, fired, AbortWatch) == fired.(watch := Resting);
    hide Step, Exec, AddMissing, DetectMissing;
  }
}
