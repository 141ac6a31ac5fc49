/** Ordered exactly-once: as long as runs succeed and tips do not go back, the watcher hands over a
    strictly increasing sequence of numbers over all its runs, and the tracker never raises a false
    alarm. The recovery job may interleave freely. */
module ExactlyOnce {
  import opened Basics
  import opened Tracker
  import opened Gaps
  import opened Ledger
  import opened Watcher
  import opened Protocol
  import Buffer = ReorderBuffer

  /** The confirmed tip is at or above the cursor, the answer holds distinct numbers of the requested
      range, and a run that starts firing ends by moving the cursor. */
  ghost predicate Orderly(p: Params, s: Sys, ev: Event)
    requires p.Valid()
  {
    && ComesBack(p, s, ev)
    && !ev.Crash? && !ev.AbortWatch?
    && (ev.CommitCursor? ==> ev.lands)
    && (ev.BeginWatch? ==>
          && s.cursor <= p.network.window.Confirmed(ev.latest)
          && Distinct(Handed(FetchedBy(p, s, ev)))
          && forall n :: n in Handed(FetchedBy(p, s, ev)) ==>
            StartOf(p, s, ev.latest) <= n <= p.network.window.Confirmed(ev.latest))
  }

  ghost predicate OrderlyAlong(p: Params, s: Sys, evs: seq<Event>)
    requires p.Valid()
    decreases |evs|
  {
    evs == [] || (Orderly(p, s, evs[0]) && OrderlyAlong(p, Step(p, s, evs[0]), evs[1..]))
  }

  ghost predicate FiredUpTo(s: Sys, bound: nat) {
    forall n :: n in s.fired ==> n <= bound
  }

  /** Everything fired lies at or below the cursor, or the tip of the current run; the next queued
      number is above all fired ones and not below the tracker's expectation. */
  ghost predicate Inv(s: Sys) {
    && (forall n :: n in s.net.history ==> n in s.fired)
    && (forall i :: 0 <= i < |s.verdicts| ==> s.verdicts[i].InOrder?)
    && Ascending(s.fired)
    && match s.watch {
         case Resting => FiredUpTo(s, s.cursor)
         case Firing(start, tip, queue) =>
           && s.cursor <= tip
           && Ascending(queue)
           && (forall n :: n in queue ==> n <= tip)
           && FiredUpTo(s, tip)
           && (queue != [] ==>
                 && (forall n :: n in s.fired ==> n < queue[0])
                 && s.net.expected.Some? && s.net.expected.value <= queue[0])
       }
  }

  lemma QueueIsSorted(p: Params, s: Sys, ev: Event)
    requires p.Valid() && ev.BeginWatch? && Orderly(p, s, ev)
    ensures var start, tip := StartOf(p, s, ev.latest), p.network.window.Confirmed(ev.latest);
            var queue := Buffer.NumbersOf(Buffer.Fire(start, ev.arrivals));
            Ascending(queue) && forall n :: n in queue ==> start <= n <= tip
  {
    var start := StartOf(p, s, ev.latest);
    QueueNumbers(p, s, ev);
    var handed := Handed(FetchedBy(p, s, ev));
    SameMultisetSameElems(Buffer.NumbersOf(ev.arrivals), handed);
    forall b | b in ev.arrivals ensures start <= b.number {
      Buffer.NumberIn(ev.arrivals, b.number);
      assert b.number in Elems(handed);
    }
    Buffer.FiresSorted(start, ev.arrivals);
    var queue := Buffer.NumbersOf(Buffer.Fire(start, ev.arrivals));
    forall n | n in queue ensures n in handed {
      assert n in Elems(queue);
    }
  }

  lemma BeginStep(p: Params, s: Sys, ev: Event)
    requires p.Valid() && Inv(s) && Orderly(p, s, ev) && ev.BeginWatch? && s.watch.Resting?
    ensures Inv(BeginWatchStep(p, s, ev))
  {
    hide Buffer.Fire, DetectMissing, AddMissing;
    var s' := BeginWatchStep(p, s, ev);
    QueueIsSorted(p, s, ev);
    if s'.watch.Firing? && s'.watch.queue != [] {
      assert s'.watch.queue[0] in s'.watch.queue;
    }
  }

  lemma FireKeeps(p: Params, s: Sys)
    requires Inv(s) && s.watch.Firing? && s.watch.queue != []
    ensures Inv(FireStep(p, s))
  {
    var s' := FireStep(p, s);
    var queue := s.watch.queue;
    var n := queue[0];
    assert n in queue;
    assert n !in s.net.history;
    assert Verdict(s.net, n).InOrder?;
    AscendingConcat(s.fired, [n]);
    assert forall m :: m in s'.net.history ==> m in s.net.history || m == n;
    assert s'.fired[|s.fired|] == n;
    assert forall m :: m in s'.watch.queue ==> m in queue;
    if s'.watch.queue != [] {
      assert queue[1] == s'.watch.queue[0] && n < queue[1];
    }
  }

  lemma InvStep(p: Params, s: Sys, ev: Event)
    requires p.Valid() && Inv(s) && Orderly(p, s, ev)
    ensures Inv(Step(p, s, ev))
  {
    if ev.BeginWatch? && s.watch.Resting? {
      BeginStep(p, s, ev);
    } else if ev.FireNext? && s.watch.Firing? && s.watch.queue != [] {
      FireKeeps(p, s);
    }
  }

  lemma {:induction false} InvAlong(p: Params, s: Sys, evs: seq<Event>)
    requires p.Valid() && Inv(s) && OrderlyAlong(p, s, evs)
    ensures Inv(Exec(p, s, evs))
    decreases |evs|
  {
    hide Step;
    if evs != [] {
      InvStep(p, s, evs[0]);
      InvAlong(p, Step(p, s, evs[0]), evs[1..]);
    }
  }

  /** From any cursor and a fresh tracker, over any number of orderly runs. */
  lemma OrderedExactlyOnce(p: Params, cursor: nat, ledger: seq<Entry>, evs: seq<Event>)
    requires p.Valid() && OrderlyAlong(p, Initial(cursor, ledger), evs)
    ensures var s := Exec(p, Initial(cursor, ledger), evs);
            Ascending(s.fired) && forall i :: 0 <= i < |s.verdicts| ==> s.verdicts[i] == InOrder
  {
    InvAlong(p, Initial(cursor, ledger), evs);
  }
}
