/** The trigger stage of one watcher run: processed blocks arrive in any order and a reorder
    buffer puts them back into ascending order before the trigger handler sees them. */
module ReorderBuffer {
  import opened Basics
  import opened Tracker

  /** A processed block. The payload tells apart different results for the same number. */
  datatype Processed = Processed(number: nat, payload: nat)

  datatype Buffer = Buffer(pending: map<nat, Processed>, next: nat)

  function NumbersOf(ps: seq<Processed>): (ns: seq<nat>)
    ensures |ns| == |ps| && forall i :: 0 <= i < |ps| ==> ns[i] == ps[i].number
  {
    seq(|ps|, i requires 0 <= i < |ps| => ps[i].number)
  }

  /** Hands over blocks as long as the next expected number is buffered. */
  function Drain(b: Buffer): (seq<Processed>, Buffer)
    decreases |b.pending|
  {
    if b.next in b.pending then
      var (fired, rest) := Drain(Buffer(b.pending - {b.next}, b.next + 1));
      ([b.pending[b.next]] + fired, rest)
    else ([], b)
  }

  /** Buffers one arrival and drains. */
  function Accept(b: Buffer, p: Processed): (seq<Processed>, Buffer) {
    Drain(Buffer(b.pending[p.number := p], b.next))
  }

  function Receive(start: nat, arrivals: seq<Processed>): (seq<Processed>, Buffer) {
    if arrivals == [] then ([], Buffer(map[], start))
    else
      var (fired, b) := Receive(start, arrivals[..|arrivals| - 1]);
      var (more, b') := Accept(b, arrivals[|arrivals| - 1]);
      (fired + more, b')
  }

  /** After the channel is closed: what is left, least number first. */
  function Flush(pending: map<nat, Processed>): seq<Processed>
    decreases |pending|
  {
    if pending == map[] then []
    else
      var least := MinOf(pending.Keys);
      [pending[least]] + Flush(pending - {least})
  }

  /** Everything the trigger handler is given, in order. */
  function Fire(start: nat, arrivals: seq<Processed>): seq<Processed> {
    var (fired, b) := Receive(start, arrivals);
    fired + Flush(b.pending)
  }

  // ---------------------------------------------------------------------------------------
  // The stage itself.

  lemma CheckAllSnoc(size: nat, net: Net, ns: seq<nat>, n: nat)
    ensures CheckAll(size, net, ns + [n]) == Check(size, CheckAll(size, net, ns), n)
    ensures VerdictAll(size, net, ns + [n]) == VerdictAll(size, net, ns) + [Verdict(CheckAll(size, net, ns), n)]
  {
    assert (ns + [n])[..|ns|] == ns;
  }

  lemma ReceiveSnoc(start: nat, arrivals: seq<Processed>, p: Processed)
    ensures var (fired, b) := Receive(start, arrivals);
            var (more, b') := Accept(b, p);
            Receive(start, arrivals + [p]) == (fired + more, b')
  {
    assert (arrivals + [p])[..|arrivals|] == arrivals;
  }

  lemma NumbersConcat(ps: seq<Processed>, qs: seq<Processed>)
    ensures NumbersOf(ps + qs) == NumbersOf(ps) + NumbersOf(qs)
  {
  }

  /** The fired blocks so far, together with the tracker state and verdicts they led to. */
  ghost predicate Checked(size: nat, before: Net, now: Net, fired: seq<Processed>, verdicts: seq<CheckResult>) {
    && now == CheckAll(size, before, NumbersOf(fired))
    && verdicts == VerdictAll(size, before, NumbersOf(fired))
  }

  /** Checks one block with the tracker and hands it to the trigger handler, whatever the verdict. */
  method Execute(slug: Slug, p: Processed, tracker: BlockTracker, ghost before: Net,
                 fired: seq<Processed>, verdicts: seq<CheckResult>)
    returns (fired': seq<Processed>, verdicts': seq<CheckResult>)
    requires Checked(tracker.historySize, before, tracker.NetOf(slug), fired, verdicts)
    modifies tracker
    ensures Checked(tracker.historySize, before, tracker.NetOf(slug), fired', verdicts')
    ensures fired' == fired + [p] && |verdicts'| == |verdicts| + 1
    ensures forall other :: other != slug ==> tracker.NetOf(other) == old(tracker.NetOf(other))
  {
    CheckAllSnoc(tracker.historySize, before, NumbersOf(fired), p.number);
    NumbersConcat(fired, [p]);
    var verdict := tracker.CheckProcessedBlock(slug, p.number);
    fired', verdicts' := fired + [p], verdicts + [verdict];
  }

  /** The inner loop: fires as long as the next expected number is buffered. */
  method DrainBuffer(slug: Slug, b: Buffer, tracker: BlockTracker, ghost before: Net,
                     fired: seq<Processed>, verdicts: seq<CheckResult>)
    returns (b': Buffer, fired': seq<Processed>, verdicts': seq<CheckResult>)
    requires Checked(tracker.historySize, before, tracker.NetOf(slug), fired, verdicts)
    modifies tracker
    ensures Checked(tracker.historySize, before, tracker.NetOf(slug), fired', verdicts')
    ensures fired' == fired + Drain(b).0 && b' == Drain(b).1
    ensures forall other :: other != slug ==> tracker.NetOf(other) == old(tracker.NetOf(other))
  {
    hide *;
    b', fired', verdicts' := b, fired, verdicts;
    while b'.next in b'.pending
      invariant Checked(tracker.historySize, before, tracker.NetOf(slug), fired', verdicts')
      invariant forall other :: other != slug ==> tracker.NetOf(other) == old(tracker.NetOf(other))
      invariant fired + Drain(b).0 == fired' + Drain(b').0 && Drain(b).1 == Drain(b').1
      decreases |b'.pending|
    {
      var rest := Buffer(b'.pending - {b'.next}, b'.next + 1);
      DrainNext(b');
      Associative(fired', [b'.pending[b'.next]], Drain(rest).0);
      fired', verdicts' := Execute(slug, b'.pending[b'.next], tracker, before, fired', verdicts');
      b' := rest;
    }
    DrainDone(b');
    assert fired' + [] == fired';
  }

  lemma DrainNext(b: Buffer)
    requires b.next in b.pending
    ensures var rest := Drain(Buffer(b.pending - {b.next}, b.next + 1));
            Drain(b) == ([b.pending[b.next]] + rest.0, rest.1)
  {
  }

  lemma DrainDone(b: Buffer)
    requires b.next !in b.pending
    ensures Drain(b) == ([], b)
  {
  }

  /** The final loop: fires what is left, least number first. */
  method FlushBuffer(slug: Slug, left: map<nat, Processed>, tracker: BlockTracker, ghost before: Net,
                     fired: seq<Processed>, verdicts: seq<CheckResult>)
    returns (fired': seq<Processed>, verdicts': seq<CheckResult>)
    requires Checked(tracker.historySize, before, tracker.NetOf(slug), fired, verdicts)
    modifies tracker
    ensures Checked(tracker.historySize, before, tracker.NetOf(slug), fired', verdicts')
    ensures fired' == fired + Flush(left)
    ensures forall other :: other != slug ==> tracker.NetOf(other) == old(tracker.NetOf(other))
  {
    hide *;
    var pending := left;
    fired', verdicts' := fired, verdicts;
    while pending != map[]
      invariant Checked(tracker.historySize, before, tracker.NetOf(slug), fired', verdicts')
      invariant forall other :: other != slug ==> tracker.NetOf(other) == old(tracker.NetOf(other))
      invariant fired + Flush(left) == fired' + Flush(pending)
      decreases |pending|
    {
      FlushLeast(pending);
      var least := MinOf(pending.Keys);
      Associative(fired', [pending[least]], Flush(pending - {least}));
      fired', verdicts' := Execute(slug, pending[least], tracker, before, fired', verdicts');
      pending := pending - {least};
    }
    FlushEmpty();
    assert fired' + [] == fired';
  }

  lemma FlushEmpty()
    ensures Flush(map[]) == []
  {
  }

  lemma FlushLeast(pending: map<nat, Processed>)
    requires pending != map[]
    ensures pending.Keys != {}
    ensures var least := MinOf(pending.Keys); Flush(pending) == [pending[least]] + Flush(pending - {least})
  {
  }

  method TriggerStage(slug: Slug, start: nat, arrivals: seq<Processed>, tracker: BlockTracker)
    returns (fired: seq<Processed>, verdicts: seq<CheckResult>)
    modifies tracker
    ensures fired == Fire(start, arrivals)
    ensures Checked(tracker.historySize, old(tracker.NetOf(slug)), tracker.NetOf(slug), fired, verdicts)
    ensures forall other :: other != slug ==> tracker.NetOf(other) == old(tracker.NetOf(other))
  {
    var b := Buffer(map[], start);
    fired, verdicts := [], [];
    ghost var before := tracker.NetOf(slug);
    for i := 0 to |arrivals|
      invariant Receive(start, arrivals[..i]) == (fired, b)
      invariant Checked(tracker.historySize, before, tracker.NetOf(slug), fired, verdicts)
      invariant forall other :: other != slug ==> tracker.NetOf(other) == old(tracker.NetOf(other))
    {
      ReceiveSnoc(start, arrivals[..i], arrivals[i]);
      assert arrivals[..i + 1] == arrivals[..i] + [arrivals[i]];
      b := b.(pending := b.pending[arrivals[i].number := arrivals[i]]);
      b, fired, verdicts := DrainBuffer(slug, b, tracker, before, fired, verdicts);
    }
    assert arrivals[..|arrivals|] == arrivals;
    fired, verdicts := FlushBuffer(slug, b.pending, tracker, before, fired, verdicts);
  }

  // ---------------------------------------------------------------------------------------
  // What the firing sequence is.

  /** Every buffered block is filed under its own number. */
  ghost predicate Filed(b: Buffer) {
    forall n :: n in b.pending ==> b.pending[n].number == n
  }

  /** What draining b into (fired, b') amounts to. */
  ghost predicate Drained(b: Buffer, fired: seq<Processed>, b': Buffer) {
    && NumbersOf(fired) == Range(b.next, b'.next)
    && b.next <= b'.next && b'.next !in b'.pending
    && (forall n :: b.next <= n < b'.next ==> n in b.pending && b.pending[n] in fired)
    && (forall p :: p in fired ==> p.number in b.pending && b.pending[p.number] == p)
    && (forall n :: n in b'.pending <==> n in b.pending && !(b.next <= n < b'.next))
    && (forall n :: n in b'.pending ==> b'.pending[n] == b.pending[n])
  }

  lemma DrainStep(b: Buffer, fired: seq<Processed>, b': Buffer)
    requires Filed(b) && b.next in b.pending
    requires Drained(Buffer(b.pending - {b.next}, b.next + 1), fired, b')
    ensures Drained(b, [b.pending[b.next]] + fired, b')
  {
    var all := [b.pending[b.next]] + fired;
    NumbersConcat([b.pending[b.next]], fired);
    RangeSplit(b.next, b.next + 1, b'.next);
    assert Range(b.next, b.next + 1) == [b.next];
    assert all[0] == b.pending[b.next];
    assert forall p :: p in all <==> p == b.pending[b.next] || p in fired;
    forall n | b.next <= n < b'.next ensures n in b.pending && b.pending[n] in all {
      if n != b.next {
        assert n in (b.pending - {b.next}) && (b.pending - {b.next})[n] in fired;
      }
    }
  }

  lemma {:induction false} DrainShape(b: Buffer)
    requires Filed(b)
    ensures var (fired, b') := Drain(b); Drained(b, fired, b')
    decreases |b.pending|
  {
    hide Drained;
    if b.next in b.pending {
      var b1 := Buffer(b.pending - {b.next}, b.next + 1);
      DrainShape(b1);
      DrainStep(b, Drain(b1).0, Drain(b1).1);
    } else {
      NothingDrained(b);
    }
  }

  lemma NothingDrained(b: Buffer)
    requires b.next !in b.pending
    ensures Drained(b, [], b)
  {
  }

  /** p arrived, and no later arrival has its number. */
  ghost predicate Latest(arrivals: seq<Processed>, p: Processed) {
    exists i :: 0 <= i < |arrivals| && arrivals[i] == p && forall j :: i < j < |arrivals| ==>
      arrivals[j].number != p.number
  }

  /** While receiving: the numbers fired are exactly start, start + 1, ..., next - 1, and
      everything else that arrived waits in the buffer. */
  ghost predicate Reordering(start: nat, arrivals: seq<Processed>, fired: seq<Processed>, b: Buffer) {
    && start <= b.next && NumbersOf(fired) == Range(start, b.next)
    && b.next !in b.pending && Filed(b)
    && (forall p :: p in fired ==> p in arrivals)
    && (forall n :: n in b.pending ==> b.pending[n] in arrivals)
    && (forall p :: p in arrivals ==> start <= p.number < b.next || p.number in b.pending)
  }

  /** The latest arrival of a number is fired or waiting. */
  ghost predicate KeepsLatest(arrivals: seq<Processed>, fired: seq<Processed>, b: Buffer) {
    forall p :: Latest(arrivals, p) ==> p in fired || (p.number in b.pending && b.pending[p.number] == p)
  }

  lemma LatestSnoc(arrivals: seq<Processed>, last: Processed, p: Processed)
    requires Latest(arrivals + [last], p)
    ensures p == last || (p.number != last.number && Latest(arrivals, p))
  {
    var all := arrivals + [last];
    var i :| 0 <= i < |all| && all[i] == p && forall j :: i < j < |all| ==> all[j].number != p.number;
    if i < |arrivals| {
      assert all[|arrivals|] == last;
      assert forall j :: i < j < |arrivals| ==> all[j] == arrivals[j];
    }
  }

  lemma AcceptReorders(start: nat, before: seq<Processed>, fired: seq<Processed>, b: Buffer, p: Processed)
    requires Reordering(start, before, fired, b)
    ensures var (more, b') := Accept(b, p); Reordering(start, before + [p], fired + more, b')
  {
    var stored := Buffer(b.pending[p.number := p], b.next);
    DrainShape(stored);
    var (more, b') := Drain(stored);
    NumbersConcat(fired, more);
    RangeSplit(start, b.next, b'.next);
    var all := before + [p];
    assert all[|before|] == p;
    assert forall q :: q in before ==> q in all;
    assert forall n :: n in stored.pending ==> stored.pending[n] in all;
  }

  lemma AcceptKeepsLatest(start: nat, before: seq<Processed>, fired: seq<Processed>, b: Buffer, p: Processed)
    requires Reordering(start, before, fired, b) && KeepsLatest(before, fired, b)
    ensures var (more, b') := Accept(b, p); KeepsLatest(before + [p], fired + more, b')
  {
    var stored := Buffer(b.pending[p.number := p], b.next);
    DrainShape(stored);
    var (more, b') := Drain(stored);
    forall q | Latest(before + [p], q)
      ensures q in fired + more || (q.number in b'.pending && b'.pending[q.number] == q)
    {
      LatestSnoc(before, p, q);
      if q !in fired {
        assert q.number in stored.pending && stored.pending[q.number] == q;
      }
    }
  }

  lemma {:induction false} ReceiveReorders(start: nat, arrivals: seq<Processed>)
    ensures var (fired, b) := Receive(start, arrivals);
            Reordering(start, arrivals, fired, b) && KeepsLatest(arrivals, fired, b)
  {
    if arrivals != [] {
      var before, p := arrivals[..|arrivals| - 1], arrivals[|arrivals| - 1];
      assert arrivals == before + [p];
      ReceiveReorders(start, before);
      var (fired, b) := Receive(start, before);
      AcceptReorders(start, before, fired, b, p);
      AcceptKeepsLatest(start, before, fired, b, p);
    }
  }

  lemma NumberIn(ps: seq<Processed>, n: nat)
    ensures n in NumbersOf(ps) <==> exists p :: p in ps && p.number == n
  {
    if n in NumbersOf(ps) {
      var i :| 0 <= i < |ps| && NumbersOf(ps)[i] == n;
      assert ps[i] in ps && ps[i].number == n;
    }
    if p :| p in ps && p.number == n {
      var i :| 0 <= i < |ps| && ps[i] == p;
      assert NumbersOf(ps)[i] == n;
    }
  }

  /** If no number arrives twice, nothing waits that was already fired. */
  lemma {:induction false} DistinctNeverLate(start: nat, arrivals: seq<Processed>)
    requires Distinct(NumbersOf(arrivals))
    ensures var (_, b) := Receive(start, arrivals); forall n :: n in b.pending ==> !(start <= n < b.next)
  {
    if arrivals != [] {
      var before, p := arrivals[..|arrivals| - 1], arrivals[|arrivals| - 1];
      assert NumbersOf(arrivals) == NumbersOf(before) + [p.number];
      DistinctNeverLate(start, before);
      ReceiveReorders(start, before);
      var (fired, b) := Receive(start, before);
      ElemsRange(start, b.next);
      NumberIn(fired, p.number);
      NumberIn(before, p.number);
      assert NumbersOf(arrivals)[|before|] == p.number;
      assert p.number !in NumbersOf(before);
      DrainShape(Buffer(b.pending[p.number := p], b.next));
    }
  }

  lemma {:induction false} FlushShape(pending: map<nat, Processed>)
    requires forall n :: n in pending ==> pending[n].number == n
    ensures NumbersOf(Flush(pending)) == Sorted(pending.Keys)
    ensures forall p :: p in Flush(pending) <==> p.number in pending && pending[p.number] == p
    decreases |pending|
  {
    if pending == map[] {
      assert pending.Keys == {};
    } else {
      var least := MinOf(pending.Keys);
      var rest := pending - {least};
      FlushShape(rest);
      assert rest.Keys == pending.Keys - {least};
      NumbersConcat([pending[least]], Flush(rest));
      assert NumbersOf([pending[least]]) == [least];
      assert Flush(pending) == [pending[least]] + Flush(rest);
      assert Sorted(pending.Keys) == [least] + Sorted(rest.Keys);
    }
  }

  /** The least number from start on that never arrived. */
  ghost predicate FirstAbsent(start: nat, arrived: set<nat>, k: nat) {
    start <= k && k !in arrived && forall n :: start <= n < k ==> n in arrived
  }

  /** For any arrivals whatever: first the contiguous run from start up to the first number that
      never arrived, then distinct numbers in ascending order. So the fired numbers are exactly the
      arrived ones, each at least once and at most twice, and the latest arrival of every number
      is among the fired blocks. */
  lemma RepeatedArrivals(start: nat, arrivals: seq<Processed>) returns (k: nat, rest: set<nat>)
    ensures FirstAbsent(start, Elems(NumbersOf(arrivals)), k)
    ensures NumbersOf(Fire(start, arrivals)) == Range(start, k) + Sorted(rest)
    ensures Elems(NumbersOf(arrivals)) - Elems(Range(start, k)) <= rest <= Elems(NumbersOf(arrivals))
    ensures Elems(NumbersOf(Fire(start, arrivals))) == Elems(NumbersOf(arrivals))
    ensures forall p :: Latest(arrivals, p) ==> p in Fire(start, arrivals)
    ensures Distinct(NumbersOf(arrivals)) ==> rest == Elems(NumbersOf(arrivals)) - Elems(Range(start, k))
  {
    ReceiveReorders(start, arrivals);
    var (fired, b) := Receive(start, arrivals);
    FlushShape(b.pending);
    k, rest := b.next, b.pending.Keys;
    NumbersConcat(fired, Flush(b.pending));
    ElemsRange(start, k);
    ElemsConcat(Range(start, k), Sorted(rest));
    ArrivedNumbers(start, arrivals, fired, b);
    if Distinct(NumbersOf(arrivals)) {
      DistinctNeverLate(start, arrivals);
    }
  }

  lemma ArrivedNumbers(start: nat, arrivals: seq<Processed>, fired: seq<Processed>, b: Buffer)
    requires Reordering(start, arrivals, fired, b)
    ensures Elems(NumbersOf(arrivals)) == Elems(Range(start, b.next)) + b.pending.Keys
  {
    ElemsRange(start, b.next);
    forall n: nat ensures n in Elems(NumbersOf(arrivals)) <==> start <= n < b.next || n in b.pending {
      NumberIn(arrivals, n);
      NumberIn(fired, n);
    }
  }

  lemma FiredArrived(start: nat, arrivals: seq<Processed>)
    ensures forall p :: p in Fire(start, arrivals) ==> p in arrivals
  {
    ReceiveReorders(start, arrivals);
    FlushShape(Receive(start, arrivals).1.pending);
  }

  lemma NumberDetermines(arrivals: seq<Processed>, p: Processed, q: Processed)
    requires Distinct(NumbersOf(arrivals)) && p in arrivals && q in arrivals && p.number == q.number
    ensures p == q
  {
    var i :| 0 <= i < |arrivals| && arrivals[i] == p;
    var j :| 0 <= j < |arrivals| && arrivals[j] == q;
    assert NumbersOf(arrivals)[i] == NumbersOf(arrivals)[j];
  }

  /** Confluence: when no number arrives twice, the blocks handed to the trigger handler and their
      order do not depend on the order of arrival. */
  lemma Confluence(start: nat, arrivals: seq<Processed>, others: seq<Processed>)
    requires Distinct(NumbersOf(arrivals)) && Distinct(NumbersOf(others))
    requires Elems(arrivals) == Elems(others)
    ensures Fire(start, arrivals) == Fire(start, others)
  {
    var k, rest := RepeatedArrivals(start, arrivals);
    var k', rest' := RepeatedArrivals(start, others);
    assert Elems(NumbersOf(arrivals)) == Elems(NumbersOf(others)) by {
      forall n: nat ensures n in NumbersOf(arrivals) <==> n in NumbersOf(others) {
        NumberIn(arrivals, n);
        NumberIn(others, n);
        assert forall p :: p in arrivals <==> p in Elems(others);
      }
    }
    assert k == k';
    var fired, fired' := Fire(start, arrivals), Fire(start, others);
    assert NumbersOf(fired) == NumbersOf(fired');
    FiredArrived(start, arrivals);
    FiredArrived(start, others);
    assert |fired| == |NumbersOf(fired)| == |fired'|;
    forall i | 0 <= i < |fired| ensures fired[i] == fired'[i] {
      assert fired[i] in arrivals && fired'[i] in others;
      assert fired'[i] in Elems(arrivals);
      assert NumbersOf(fired)[i] == NumbersOf(fired')[i];
      NumberDetermines(arrivals, fired[i], fired'[i]);
    }
  }

  /** When nothing before start arrives and no number arrives twice, the stage sorts. */
  lemma FiresSorted(start: nat, arrivals: seq<Processed>)
    requires Distinct(NumbersOf(arrivals))
    requires forall p :: p in arrivals ==> start <= p.number
    ensures NumbersOf(Fire(start, arrivals)) == Sorted(Elems(NumbersOf(arrivals)))
  {
    var k, rest := RepeatedArrivals(start, arrivals);
    ElemsRange(start, k);
    forall n | n in rest ensures k <= n {
      NumberIn(arrivals, n);
      assert n !in Elems(Range(start, k));
    }
    forall x, y | x in Range(start, k) && y in Sorted(rest) ensures x < y {
      assert y in Elems(Sorted(rest));
    }
    AscendingConcat(Range(start, k), Sorted(rest));
    AscendingUnique(Range(start, k) + Sorted(rest), Sorted(Elems(NumbersOf(arrivals))));
  }

  lemma FiresLone(start: nat, p: Processed)
    ensures NumbersOf(Fire(start, [p])) == [p.number]
  {
    var k, rest := RepeatedArrivals(start, [p]);
    assert NumbersOf([p]) == [p.number];
    hide *;
    LoneElems(p.number);
    FirstAbsentOfOne(start, p.number, k);
    LoneListing(start, p.number, k, rest);
  }

  lemma LoneElems(n: nat)
    ensures Elems([n]) == {n} && Distinct([n])
  {
  }

  lemma FirstAbsentOfOne(start: nat, n: nat, k: nat)
    requires FirstAbsent(start, Elems([n]), k)
    ensures k == if n == start then start + 1 else start
  {
    LoneElems(n);
    var arrived := Elems([n]);
    assert start < k ==> start in arrived;
    assert start + 1 < k ==> start + 1 in arrived;
    assert n in arrived;
  }

  lemma LoneListing(start: nat, n: nat, k: nat, rest: set<nat>)
    requires k == (if n == start then start + 1 else start) && rest == {n} - Elems(Range(start, k))
    ensures Range(start, k) + Sorted(rest) == [n]
  {
    ElemsRange(start, k);
    hide Sorted;
    LoneElems(n);
    if n == start {
      assert n in Elems(Range(start, k));
      assert rest == {};
    } else {
      assert rest == {n};
      AscendingUnique(Sorted(rest), [n]);
    }
  }
}
