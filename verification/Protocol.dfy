/** The whole block-watching protocol of one network as a state machine. The watcher job and the
    recovery job take single storage or trigger operations as steps, interleaved in any order;
    writes may fail, runs may be aborted and the process may die between any two steps. */
module Protocol {
  import opened Basics
  import opened Window
  import opened Tracker
  import opened Gaps
  import opened Ledger
  import opened Watcher
  import Buffer = ReorderBuffer
  import Job = Recovery

  datatype Params = Params(network: Network, recovery: Job.Config, historySize: nat) {
    predicate Valid() {
      network.window.Valid()
    }
  }

  /** The watcher job: at rest, or with a queue of block numbers still to be handed over. */
  datatype WatchPhase = Resting | Firing(start: nat, tip: nat, queue: seq<nat>)

  /** The recovery job. In the last three phases one entry is being attempted: its Recovering mark
      has been tried; or it was handed over and its Recovered mark is due; or the node did not
      deliver it and its new status is due. */
  datatype RecoveryPhase =
    | Idle
    | Selecting(confirmed: nat)
    | Working(todo: seq<Entry>, done: seq<nat>)
    | Marked(entry: Entry, todo: seq<Entry>, done: seq<nat>)
    | Delivered(entry: Entry, todo: seq<Entry>, done: seq<nat>)
    | Refused(entry: Entry, todo: seq<Entry>, done: seq<nat>)
  {
    function Todo(): seq<Entry> {
      if Idle? || Selecting? then [] else todo
    }

    function Done(): seq<nat> {
      if Idle? || Selecting? then [] else done
    }
  }

  /** Cursor 0 stands for "no block processed yet". The last six fields record what happened:
      numbers fired by the watcher with the tracker's verdicts, numbers the recovery job attempted
      and handed over, numbers passed over by a window, and numbers pruned from the ledger. */
  datatype Sys = Sys(
    cursor: nat, ledger: seq<Entry>, net: Net, watch: WatchPhase, job: RecoveryPhase,
    fired: seq<nat>, verdicts: seq<CheckResult>, attempted: seq<nat>, redelivered: seq<nat>,
    skipped: set<nat>, pruned: set<nat>)

  datatype Event =
    | BeginWatch(latest: nat, blocks: seq<Block>, arrivals: seq<Buffer.Processed>, gapsLand: bool)
    | FireNext
    | CommitCursor(lands: bool)
    | AbortWatch
    | BeginRecovery(latest: nat, lands: bool)
    | SelectBatch(lands: bool)
    | Mark(lands: bool)
    | Fetch(answer: Job.Answer)
    | Settle(lands: bool)
    | FinishRecovery(lands: bool)
    | Crash

  function StartOf(p: Params, s: Sys, latest: nat): nat
    requires p.Valid()
  {
    StartBlock(s.cursor, p.network.window.Confirmed(latest), p.network.window.PastBlocks())
  }

  /** The blocks a run gets to see: none when the tip is not ahead of a positive cursor. */
  function FetchedBy(p: Params, s: Sys, ev: Event): seq<Block>
    requires ev.BeginWatch?
  {
    if s.cursor == 0 || s.cursor < p.network.window.Confirmed(ev.latest) then ev.blocks else []
  }

  function BeginWatchStep(p: Params, s: Sys, ev: Event): Sys
    requires p.Valid() && ev.BeginWatch?
  {
    var start, tip := StartOf(p, s, ev.latest), p.network.window.Confirmed(ev.latest);
    var reset := s.(net := Reset(s.net, start));
    var gaps := DetectMissing(FetchedBy(p, s, ev));
    if gaps != [] && p.network.RecordsGaps() && !ev.gapsLand then reset
    else
      var recorded := if p.network.RecordsGaps() then reset.(ledger := AddMissing(s.ledger, gaps)) else reset;
      recorded.(watch := Firing(start, tip, Buffer.NumbersOf(Buffer.Fire(start, ev.arrivals))))
  }

  function FireStep(p: Params, s: Sys): Sys
    requires s.watch.Firing? && s.watch.queue != []
  {
    var n := s.watch.queue[0];
    s.(watch := s.watch.(queue := s.watch.queue[1..]), net := Check(p.historySize, s.net, n),
       fired := s.fired + [n], verdicts := s.verdicts + [Verdict(s.net, n)])
  }

  function CommitStep(s: Sys, lands: bool): Sys
    requires s.watch.Firing?
  {
    if lands then s.(cursor := s.watch.tip, skipped := s.skipped + Skipped(s.cursor, s.watch.start), watch := Resting)
    else s.(watch := Resting)
  }

  function PruneStep(p: Params, s: Sys, latest: nat): Sys {
    var confirmed := p.network.window.Confirmed(latest);
    var kept := Prune(s.ledger, SatSub(confirmed, p.recovery.maxBlockAge));
    s.(ledger := kept, pruned := s.pruned + (Keys(s.ledger) - Keys(kept)), job := Selecting(confirmed))
  }

  function SettleStep(p: Params, s: Sys, lands: bool): Sys
    requires s.job.Delivered? || s.job.Refused?
  {
    var status := if s.job.Delivered? then Recovered else Job.AfterFailure(s.job.entry, p.recovery.maxRetries);
    s.(ledger := Job.WriteStatus(s.ledger, s.job.entry.number, status, lands),
       job := Working(s.job.todo, if s.job.Delivered? then s.job.done + [s.job.entry.number] else s.job.done))
  }

  /** One step; an event that does not fit the current phases changes nothing. */
  function Step(p: Params, s: Sys, ev: Event): Sys
    requires p.Valid()
  {
    match ev
    case BeginWatch(_, _, _, _) => if s.watch.Resting? then BeginWatchStep(p, s, ev) else s
    case FireNext => if s.watch.Firing? && s.watch.queue != [] then FireStep(p, s) else s
    case CommitCursor(lands) => if s.watch.Firing? && s.watch.queue == [] then CommitStep(s, lands) else s
    case AbortWatch => s.(watch := Resting)
    case BeginRecovery(latest, lands) => if s.job.Idle? && lands then PruneStep(p, s, latest) else s
    case SelectBatch(lands) =>
      if !s.job.Selecting? then s
      else if lands then s.(job := Working(Job.Batch(s.ledger, p.recovery, s.job.confirmed), []))
      else s.(job := Idle)
    case Mark(lands) =>
      if s.job.Working? && s.job.todo != [] then
        s.(ledger := Job.WriteStatus(s.ledger, s.job.todo[0].number, Recovering, lands),
           attempted := s.attempted + [s.job.todo[0].number],
           job := Marked(s.job.todo[0], s.job.todo[1..], s.job.done))
      else s
    case Fetch(answer) =>
      if !s.job.Marked? then s
      else if answer.Found? then
        s.(redelivered := s.redelivered + [s.job.entry.number], job := Delivered(s.job.entry, s.job.todo, s.job.done))
      else s.(job := Refused(s.job.entry, s.job.todo, s.job.done))
    case Settle(lands) => if s.job.Delivered? || s.job.Refused? then SettleStep(p, s, lands) else s
    case FinishRecovery(lands) =>
      if s.job.Working? && s.job.todo == [] then
        s.(ledger := if lands then Remove(s.ledger, Elems(s.job.done)) else s.ledger, job := Idle)
      else s
    case Crash => s.(watch := Resting, job := Idle, net := FRESH)
  }

  function Exec(p: Params, s: Sys, evs: seq<Event>): Sys
    requires p.Valid()
    decreases |evs|
  {
    if evs == [] then s else Exec(p, Step(p, s, evs[0]), evs[1..])
  }

  lemma {:induction false} ExecConcat(p: Params, s: Sys, evs: seq<Event>, more: seq<Event>)
    requires p.Valid()
    ensures Exec(p, s, evs + more) == Exec(p, Exec(p, s, evs), more)
    decreases |evs|
  {
    hide Step;
    if evs == [] {
      assert evs + more == more;
    } else {
      ExecConcat(p, Step(p, s, evs[0]), evs[1..], more);
      assert (evs + more)[1..] == evs[1..] + more;
    }
  }

  lemma ExecOne(p: Params, s: Sys, ev: Event)
    requires p.Valid()
    ensures Exec(p, s, [ev]) == Step(p, s, ev)
  {
    hide Step;
    assert [ev][1..] == [];
  }

  lemma ExecTwo(p: Params, s: Sys, e1: Event, e2: Event)
    requires p.Valid()
    ensures Exec(p, s, [e1, e2]) == Step(p, Step(p, s, e1), e2)
  {
    hide Step;
    assert [e1, e2][1..] == [e2];
    ExecOne(p, Step(p, s, e1), e2);
  }

  lemma ExecThree(p: Params, s: Sys, e1: Event, e2: Event, e3: Event)
    requires p.Valid()
    ensures Exec(p, s, [e1, e2, e3]) == Step(p, Step(p, Step(p, s, e1), e2), e3)
  {
    hide Step;
    assert [e1, e2, e3][1..] == [e2, e3];
    ExecTwo(p, Step(p, s, e1), e2, e3);
  }

  /** Both jobs at rest, nothing recorded yet. */
  function Initial(cursor: nat, ledger: seq<Entry>): Sys {
    Sys(cursor, ledger, FRESH, Resting, Idle, [], [], [], [], {}, {})
  }

  /** Every fetched block comes back from the concurrent handlers exactly once. */
  ghost predicate ComesBack(p: Params, s: Sys, ev: Event) {
    ev.BeginWatch? ==> multiset(Buffer.NumbersOf(ev.arrivals)) == multiset(Handed(FetchedBy(p, s, ev)))
  }

  lemma QueueNumbers(p: Params, s: Sys, ev: Event)
    requires p.Valid() && ev.BeginWatch? && ComesBack(p, s, ev)
    ensures Elems(Buffer.NumbersOf(Buffer.Fire(StartOf(p, s, ev.latest), ev.arrivals)))
            == Elems(Handed(FetchedBy(p, s, ev)))
    ensures Distinct(Handed(FetchedBy(p, s, ev))) ==> Distinct(Buffer.NumbersOf(ev.arrivals))
  {
    var _, _ := Buffer.RepeatedArrivals(StartOf(p, s, ev.latest), ev.arrivals);
    SameMultisetSameElems(Buffer.NumbersOf(ev.arrivals), Handed(FetchedBy(p, s, ev)));
    SameMultisetSameElems(Handed(FetchedBy(p, s, ev)), Buffer.NumbersOf(ev.arrivals));
  }
}
