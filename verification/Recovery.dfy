/** The recovery job: drains the ledger of missed blocks, oldest first, a bounded batch per run. */
module Recovery {
  import opened Basics
  import opened Ledger
  import Sorting

  datatype Config = Config(maxBlocksPerRun: nat, maxBlockAge: nat, maxRetries: nat)

  /** What the node answers to the request for one missed block. */
  datatype Answer = Found | NotFound | RpcError

  /** One attempt: whether the two status writes land, and the node's answer between them. */
  datatype Try = Try(markLands: bool, answer: Answer, settleLands: bool)

  /** Everything a run learns from outside. tries(k) belongs to the k-th block it attempts. */
  datatype Env = Env(latest: Option<nat>, pruneLands: bool, selectLands: bool, tries: nat -> Try, removeLands: bool)

  datatype RecoveryResult = RecoveryResult(attempted: nat, recovered: nat, failed: nat, pruned: nat)

  function NumbersOf(l: seq<Entry>): (ns: seq<nat>)
    ensures |ns| == |l| && forall i :: 0 <= i < |l| ==> ns[i] == l[i].number
  {
    seq(|l|, i requires 0 <= i < |l| => l[i].number)
  }

  predicate Older(e: Entry, f: Entry) {
    e.number < f.number
  }

  function SortByNumber(l: seq<Entry>): seq<Entry> {
    Sorting.Sort(l, Older)
  }

  function Truncate(l: seq<Entry>, m: nat): seq<Entry> {
    if |l| <= m then l else l[..m]
  }

  /** The entries one run will attempt, given the ledger after pruning. */
  function Batch(l: seq<Entry>, cfg: Config, confirmed: nat): seq<Entry> {
    Truncate(SortByNumber(Eligible(l, SatSub(confirmed, cfg.maxBlockAge), cfg.maxRetries)), cfg.maxBlocksPerRun)
  }

  /** Status after a failed attempt; the decision uses the retry count read when the batch was selected. */
  function AfterFailure(e: Entry, maxRetries: nat): Status {
    if maxRetries <= e.retries + 1 then Failed else Pending
  }

  function Outcome(e: Entry, answer: Answer, maxRetries: nat): Status {
    if answer.Found? then Recovered else AfterFailure(e, maxRetries)
  }

  function WriteStatus(l: seq<Entry>, n: nat, status: Status, lands: bool): seq<Entry> {
    if lands then SetStatus(l, n, status) else l
  }

  function Attempt(l: seq<Entry>, e: Entry, t: Try, maxRetries: nat): seq<Entry> {
    WriteStatus(WriteStatus(l, e.number, Recovering, t.markLands), e.number, Outcome(e, t.answer, maxRetries),
      t.settleLands)
  }

  datatype Progress = Progress(ledger: seq<Entry>, recovered: seq<nat>, failed: nat)

  function Attempts(l: seq<Entry>, batch: seq<Entry>, tries: nat -> Try, maxRetries: nat): Progress {
    if batch == [] then Progress(l, [], 0)
    else
      var k := |batch| - 1;
      var p, e, t := Attempts(l, batch[..k], tries, maxRetries), batch[k], tries(k);
      Progress(Attempt(p.ledger, e, t, maxRetries),
               if t.answer.Found? then p.recovered + [e.number] else p.recovered,
               if Outcome(e, t.answer, maxRetries).Failed? then p.failed + 1 else p.failed)
  }

  /** Outcome of a run: the ledger, the numbers attempted and the numbers handed to the trigger
      handler in order, and the statistics unless the run ended early with an error. */
  datatype Run = Run(ledger: seq<Entry>, attempted: seq<nat>, fired: seq<nat>, result: Option<RecoveryResult>)

  function RunRecovery(l: seq<Entry>, cfg: Config, confirmations: nat, env: Env): Run {
    if env.latest.None? || !env.pruneLands then Run(l, [], [], None)
    else
      var confirmed := SatSub(env.latest.value, confirmations);
      var kept := Prune(l, SatSub(confirmed, cfg.maxBlockAge));
      if !env.selectLands then Run(kept, [], [], None)
      else
        var batch := Batch(kept, cfg, confirmed);
        var p := Attempts(kept, batch, env.tries, cfg.maxRetries);
        Run(if env.removeLands then Remove(p.ledger, Elems(p.recovered)) else p.ledger,
            NumbersOf(batch), p.recovered,
            Some(RecoveryResult(|batch|, |p.recovered|, p.failed, |l| - |kept|)))
  }

  lemma AttemptsSnoc(l: seq<Entry>, batch: seq<Entry>, k: nat, tries: nat -> Try, maxRetries: nat)
    requires k < |batch|
    ensures var p, e, t := Attempts(l, batch[..k], tries, maxRetries), batch[k], tries(k);
            Attempts(l, batch[..k + 1], tries, maxRetries) ==
            Progress(Attempt(p.ledger, e, t, maxRetries),
                     if t.answer.Found? then p.recovered + [e.number] else p.recovered,
                     if Outcome(e, t.answer, maxRetries).Failed? then p.failed + 1 else p.failed)
  {
    assert batch[..k + 1][..k] == batch[..k];
  }

  /** The job, step by step on the stored ledger. */
  method ProcessMissedBlocks(storage: FileBlockStorage, cfg: Config, confirmations: nat, env: Env)
    returns (result: Option<RecoveryResult>, fired: seq<nat>)
    modifies storage`missedJson, storage`missedText
    ensures var run := RunRecovery(old(storage.MissedBlocks()), cfg, confirmations, env);
            storage.MissedBlocks() == run.ledger && result == run.result && fired == run.fired
  {
    hide SetStatus, Select, SortByNumber, Keys, Truncate;
    fired := [];
    if env.latest.None? {
      return None, [];
    }
    var confirmed := SatSub(env.latest.value, confirmations);
    var pruned := storage.PruneOldMissedBlocks(cfg.maxBlockAge, confirmed, env.pruneLands);
    if pruned.None? {
      return None, [];
    }
    var selected := storage.GetMissedBlocks(cfg.maxBlockAge, confirmed, cfg.maxRetries, env.selectLands);
    if selected.None? {
      return None, [];
    }
    var batch := Truncate(SortByNumber(selected.value), cfg.maxBlocksPerRun);
    ghost var kept := storage.MissedBlocks();
    if batch == [] {
      NothingRemoved(kept);
      return Some(RecoveryResult(0, 0, 0, pruned.value)), [];
    }
    var recovered: seq<nat>, failed := [], 0;
    for k := 0 to |batch|
      invariant Attempts(kept, batch[..k], env.tries, cfg.maxRetries)
              == Progress(storage.MissedBlocks(), recovered, failed)
      invariant fired == recovered
    {
      AttemptsSnoc(kept, batch, k, env.tries, cfg.maxRetries);
      var e, t := batch[k], env.tries(k);
      var _ := storage.UpdateMissedBlockStatus(e.number, Recovering, t.markLands);
      if t.answer.Found? {
        fired := fired + [e.number];
        var _ := storage.UpdateMissedBlockStatus(e.number, Recovered, t.settleLands);
        recovered := recovered + [e.number];
      } else {
        var status := AfterFailure(e, cfg.maxRetries);
        var _ := storage.UpdateMissedBlockStatus(e.number, status, t.settleLands);
        if status.Failed? {
          failed := failed + 1;
        }
      }
    }
    assert batch[..|batch|] == batch;
    if recovered != [] {
      var _ := storage.RemoveRecoveredBlocks(recovered, env.removeLands);
    } else {
      NothingRemoved(storage.MissedBlocks());
    }
    result := Some(RecoveryResult(|batch|, |recovered|, failed, pruned.value));
  }

  lemma NothingRemoved(l: seq<Entry>)
    ensures Remove(l, Elems([])) == l
  {
    SelectAll(l, NotIn(Elems([])));
  }

  // ---------------------------------------------------------------------------------------
  // Selection.

  ghost predicate SortedEntries(l: seq<Entry>) {
    forall i, j :: 0 <= i < j < |l| ==> l[i].number <= l[j].number
  }

  lemma SortSorts(l: seq<Entry>)
    ensures SortedEntries(SortByNumber(l)) && multiset(SortByNumber(l)) == multiset(l)
    ensures |SortByNumber(l)| == |l|
  {
    Sorting.SortKeeps(l, Older);
    Sorting.SortOrders(l, Older);
    assert |multiset(SortByNumber(l))| == |multiset(l)|;
  }

  lemma PermutationUnique(l: seq<Entry>, s: seq<Entry>)
    requires UniqueKeys(l) && multiset(l) == multiset(s)
    ensures UniqueKeys(s)
  {
    forall i, j | 0 <= i < j < |s| ensures s[i].number != s[j].number {
      assert s[i] in multiset(s) && s[j] in multiset(s);
      assert s[i] in l && s[j] in l;
      if s[i] == s[j] {
        assert s == s[..i] + [s[i]] + s[i + 1..j] + [s[j]] + s[j + 1..];
        assert multiset(s)[s[i]] >= 2;
        OnceInUnique(l, s[i]);
        assert false;
      }
    }
  }

  lemma {:induction false} OnceInUnique(l: seq<Entry>, e: Entry)
    requires UniqueKeys(l)
    ensures multiset(l)[e] <= 1
  {
    if l != [] {
      OnceInUnique(l[1..], e);
      assert l == [l[0]] + l[1..];
    }
  }

  /** The batch holds the oldest eligible entries in ascending order: min(limit, eligible) many,
      and every eligible entry outside it is younger than all of it. */
  lemma BatchIsOldest(l: seq<Entry>, cfg: Config, confirmed: nat)
    requires UniqueKeys(l)
    ensures var eligible := Eligible(l, SatSub(confirmed, cfg.maxBlockAge), cfg.maxRetries);
            var batch := Batch(l, cfg, confirmed);
            && |batch| == (if |eligible| <= cfg.maxBlocksPerRun then |eligible| else cfg.maxBlocksPerRun)
            && Ascending(NumbersOf(batch))
            && (forall e :: e in batch ==> e in eligible)
            && (forall e, f :: e in eligible && e !in batch && f in batch ==> f.number < e.number)
  {
    var eligible := Eligible(l, SatSub(confirmed, cfg.maxBlockAge), cfg.maxRetries);
    SelectUnique(l, Retryable(SatSub(confirmed, cfg.maxBlockAge), cfg.maxRetries));
    SortSorts(eligible);
    var sorted := SortByNumber(eligible);
    PermutationUnique(eligible, sorted);
    TruncateOldest(sorted, cfg.maxBlocksPerRun);
    assert forall e :: e in sorted <==> e in multiset(eligible);
  }

  lemma TruncateOldest(sorted: seq<Entry>, m: nat)
    requires SortedEntries(sorted) && UniqueKeys(sorted)
    ensures var batch := Truncate(sorted, m);
            && Ascending(NumbersOf(batch))
            && (forall e :: e in batch ==> e in sorted)
            && (forall e, f :: e in sorted && e !in batch && f in batch ==> f.number < e.number)
  {
    var batch := Truncate(sorted, m);
    assert forall j :: 0 <= j < |batch| ==> batch[j] == sorted[j];
    forall e, f | e in sorted && e !in batch && f in batch ensures f.number < e.number {
      var j :| 0 <= j < |sorted| && sorted[j] == e;
      var i :| 0 <= i < |batch| && batch[i] == f;
    }
  }

  lemma NotInBatch(batch: seq<Entry>, e: Entry)
    ensures e in batch ==> e.number in NumbersOf(batch)
  {
    if e in batch {
      var i :| 0 <= i < |batch| && batch[i] == e;
      assert NumbersOf(batch)[i] == e.number;
    }
  }

  /** An eligible entry is left out only of a full batch. */
  lemma FullBatch(kept: seq<Entry>, cfg: Config, confirmed: nat, e: Entry)
    requires e in Eligible(kept, SatSub(confirmed, cfg.maxBlockAge), cfg.maxRetries)
             && e !in Batch(kept, cfg, confirmed)
    ensures |Batch(kept, cfg, confirmed)| == cfg.maxBlocksPerRun
  {
    var eligible := Eligible(kept, SatSub(confirmed, cfg.maxBlockAge), cfg.maxRetries);
    SortSorts(eligible);
    assert e in multiset(eligible);
    assert e in SortByNumber(eligible);
  }

  /** After pruning, the age test of the selection excludes nothing. */
  lemma AgeTestRedundant(l: seq<Entry>, least: nat, maxRetries: nat)
    ensures forall e :: (e in Eligible(Prune(l, least), least, maxRetries)
                         <==> e in Prune(l, least) && e.status == Pending && e.retries < maxRetries)
  {
  }

  /** A status write changes only the named entry, and keeps the numbers. */
  lemma WriteStatusEffect(l: seq<Entry>, n: nat, status: Status, lands: bool)
    requires UniqueKeys(l)
    ensures var l' := WriteStatus(l, n, status, lands);
            && UniqueKeys(l') && Keys(l') == Keys(l)
            && (forall e' :: e' in l' ==> e' in l || (lands && e'.number == n && e'.status == status))
            && (forall e' :: e' in l' && lands && e'.number == n ==> e'.status == status)
  {
    SetStatusMembers(l, n, status);
  }

  // ---------------------------------------------------------------------------------------
  // Effect of the attempts, whichever of their writes land.

  ghost predicate AllLand(tries: nat -> Try, count: nat) {
    forall k :: 0 <= k < count ==> tries(k).markLands && tries(k).settleLands
  }

  function Write(e: Entry, status: Status, lands: bool): Entry {
    if lands then Updated(e, status) else e
  }

  /** What an attempt leaves of its entry. */
  function Written(e: Entry, t: Try, maxRetries: nat): Entry {
    Write(Write(e, Recovering, t.markLands), Outcome(e, t.answer, maxRetries), t.settleLands)
  }

  /** Final form of an attempted entry whose writes land. */
  function Settled(e: Entry, answer: Answer, maxRetries: nat): Entry {
    Updated(e, Outcome(e, answer, maxRetries))
  }

  lemma WriteAt(l: seq<Entry>, e: Entry, status: Status, lands: bool)
    requires UniqueKeys(l) && e in l
    ensures var l' := WriteStatus(l, e.number, status, lands);
            && |l'| == |l| && UniqueKeys(l') && Keys(l') == Keys(l) && Write(e, status, lands) in l'
            && (forall i :: 0 <= i < |l| ==> l'[i] == if l[i].number == e.number then Write(e, status, lands) else l[i])
  {
    SetStatusMembers(l, e.number, status);
    forall i | 0 <= i < |l| && l[i].number == e.number ensures l[i] == e {
      UniqueEntry(l, l[i], e);
    }
    var j :| 0 <= j < |l| && l[j] == e;
    assert WriteStatus(l, e.number, status, lands)[j] == Write(e, status, lands);
  }

  lemma AttemptEffect(l: seq<Entry>, e: Entry, t: Try, maxRetries: nat)
    requires UniqueKeys(l) && e in l
    ensures var l' := Attempt(l, e, t, maxRetries);
            && |l'| == |l| && UniqueKeys(l') && Keys(l') == Keys(l)
            && (forall i :: 0 <= i < |l| ==> l'[i] == if l[i].number == e.number then Written(e, t, maxRetries)
              else l[i])
  {
    WriteAt(l, e, Recovering, t.markLands);
    WriteAt(WriteStatus(l, e.number, Recovering, t.markLands), Write(e, Recovering, t.markLands),
            Outcome(e, t.answer, maxRetries), t.settleLands);
    hide WriteStatus, UniqueKeys, Keys;
  }

  /** How entry x of the ledger looks after the batch has been attempted. */
  ghost predicate After(x: Entry, x': Entry, batch: seq<Entry>, tries: nat -> Try, maxRetries: nat) {
    && (x.number !in NumbersOf(batch) ==> x' == x)
    && (forall k :: 0 <= k < |batch| && batch[k].number == x.number ==> x' == Written(batch[k], tries(k), maxRetries))
  }

  lemma {:induction false} AttemptsEffect(l: seq<Entry>, batch: seq<Entry>, tries: nat -> Try, maxRetries: nat)
    requires UniqueKeys(l) && UniqueKeys(batch) && (forall e :: e in batch ==> e in l)
    ensures var p := Attempts(l, batch, tries, maxRetries);
            && |p.ledger| == |l| && UniqueKeys(p.ledger) && Keys(p.ledger) == Keys(l)
            && (forall i :: 0 <= i < |l| ==> After(l[i], p.ledger[i], batch, tries, maxRetries))
  {
    if batch != [] {
      var k := |batch| - 1;
      var before, e := batch[..k], batch[k];
      AttemptsEffect(l, before, tries, maxRetries);
      var mid := Attempts(l, before, tries, maxRetries).ledger;
      UntouchedSoFar(l, mid, batch, tries, maxRetries);
      AttemptEffect(mid, e, tries(k), maxRetries);
      hide Attempt, Written, After;
      forall i | 0 <= i < |l| ensures After(l[i], Attempts(l, batch, tries, maxRetries).ledger[i], batch, tries,
        maxRetries) {
        AfterSnoc(l[i], mid[i], Attempts(l, batch, tries, maxRetries).ledger[i], batch, tries, maxRetries);
      }
    }
  }

  /** The last entry of a batch is still as selected when its turn comes. */
  lemma UntouchedSoFar(l: seq<Entry>, mid: seq<Entry>, batch: seq<Entry>, tries: nat -> Try, maxRetries: nat)
    requires batch != [] && UniqueKeys(batch) && |mid| == |l| && batch[|batch| - 1] in l
    requires forall i :: 0 <= i < |l| ==> After(l[i], mid[i], batch[..|batch| - 1], tries, maxRetries)
    ensures batch[|batch| - 1] in mid
    ensures forall i :: 0 <= i < |l| ==> mid[i].number == l[i].number
  {
    var before, e := batch[..|batch| - 1], batch[|batch| - 1];
    var j :| 0 <= j < |l| && l[j] == e;
    assert forall i :: 0 <= i < |before| ==> NumbersOf(before)[i] == batch[i].number;
    assert e.number !in NumbersOf(before);
    assert After(l[j], mid[j], before, tries, maxRetries);
    forall i | 0 <= i < |l| ensures mid[i].number == l[i].number {
      assert After(l[i], mid[i], before, tries, maxRetries);
      if l[i].number in NumbersOf(before) {
        var k :| 0 <= k < |before| && NumbersOf(before)[k] == l[i].number;
        assert mid[i] == Written(before[k], tries(k), maxRetries);
      }
    }
  }

  lemma AfterSnoc(x: Entry, mid: Entry, x': Entry, batch: seq<Entry>, tries: nat -> Try, maxRetries: nat)
    requires batch != [] && UniqueKeys(batch)
    requires mid.number == x.number
    requires After(x, mid, batch[..|batch| - 1], tries, maxRetries)
    requires var e, t := batch[|batch| - 1], tries(|batch| - 1);
             x' == if mid.number == e.number then Written(e, t, maxRetries) else mid
    ensures After(x, x', batch, tries, maxRetries)
  {
    var before := batch[..|batch| - 1];
    if x.number !in NumbersOf(batch) {
      assert forall i :: 0 <= i < |before| ==> NumbersOf(before)[i] == NumbersOf(batch)[i];
      assert NumbersOf(batch)[|batch| - 1] == batch[|batch| - 1].number;
    }
  }

  /** The recovered numbers are those of the batch entries the node answered. */
  lemma {:induction false} RecoveredNumbers(l: seq<Entry>, batch: seq<Entry>, tries: nat -> Try, maxRetries: nat)
    ensures var p := Attempts(l, batch, tries, maxRetries);
            && (forall n :: n in p.recovered <==>
                exists k :: 0 <= k < |batch| && batch[k].number == n && tries(k).answer.Found?)
            && (UniqueKeys(batch) ==> Distinct(p.recovered))
            && |p.recovered| + p.failed <= |batch|
  {
    if batch != [] {
      var k := |batch| - 1;
      RecoveredNumbers(l, batch[..k], tries, maxRetries);
      var p := Attempts(l, batch, tries, maxRetries);
      forall n ensures n in p.recovered <==>
          exists j :: 0 <= j < |batch| && batch[j].number == n && tries(j).answer.Found? {
        if j :| 0 <= j < |batch| && batch[j].number == n && tries(j).answer.Found? {
          assert j < k ==> batch[..k][j] == batch[j];
        }
      }
      if UniqueKeys(batch) {
        assert batch[k].number !in Attempts(l, batch[..k], tries, maxRetries).recovered;
      }
    }
  }

  /** Numbers whose attempt sent them back to Pending. */
  function Requeued(batch: seq<Entry>, tries: nat -> Try, maxRetries: nat): seq<nat> {
    if batch == [] then []
    else
      var k := |batch| - 1;
      var before := Requeued(batch[..k], tries, maxRetries);
      if Outcome(batch[k], tries(k).answer, maxRetries).Pending? then before + [batch[k].number] else before
  }

  // ---------------------------------------------------------------------------------------
  // Whole runs.

  /** All storage writes of the run land and nothing makes it end early. */
  ghost predicate Healthy(env: Env) {
    env.latest.Some? && env.pruneLands && env.selectLands && WritesLand(env)
  }

  /** The writes inside the attempts and the final removal land. */
  ghost predicate WritesLand(env: Env) {
    env.removeLands && forall k :: env.tries(k).markLands && env.tries(k).settleLands
  }

  function Least(cfg: Config, confirmations: nat, latest: nat): nat {
    SatSub(SatSub(latest, confirmations), cfg.maxBlockAge)
  }

  function BatchOf(l: seq<Entry>, cfg: Config, confirmations: nat, latest: nat): seq<Entry> {
    Batch(Prune(l, Least(cfg, confirmations, latest)), cfg, SatSub(latest, confirmations))
  }

  /** Exactly what a healthy run leaves behind: entries older than the limit are gone; entries that
      were not attempted are untouched; recovered numbers are gone; every other attempted entry has
      one more retry and is Failed or Pending; nothing else is in the ledger. */
  lemma RunOutcome(l: seq<Entry>, cfg: Config, confirmations: nat, env: Env)
    requires UniqueKeys(l) && Healthy(env)
    ensures var run := RunRecovery(l, cfg, confirmations, env);
            var batch := BatchOf(l, cfg, confirmations, env.latest.value);
            var least := Least(cfg, confirmations, env.latest.value);
            && UniqueKeys(run.ledger)
            && (forall n :: n in run.fired <==>
                exists k :: 0 <= k < |batch| && batch[k].number == n && env.tries(k).answer.Found?)
            && (forall x :: x in run.ledger <==>
                  || (x in l && least <= x.number && x.number !in run.attempted)
                  || (exists k ::
                        && 0 <= k < |batch| && !env.tries(k).answer.Found?
                        && x == Settled(batch[k], env.tries(k).answer, cfg.maxRetries)))
  {
    var latest := env.latest.value;
    var least := Least(cfg, confirmations, latest);
    var kept := Prune(l, least);
    SelectUnique(l, NotOlder(least));
    BatchIsOldest(kept, cfg, SatSub(latest, confirmations));
    var batch := BatchOf(l, cfg, confirmations, latest);
    UniqueNumbers(batch);
    AttemptsEffect(kept, batch, env.tries, cfg.maxRetries);
    RecoveredNumbers(kept, batch, env.tries, cfg.maxRetries);
    var p := Attempts(kept, batch, env.tries, cfg.maxRetries);
    SelectUnique(p.ledger, NotIn(Elems(p.recovered)));
    LedgerAfter(kept, batch, env.tries, cfg.maxRetries);
    var run := RunRecovery(l, cfg, confirmations, env);
    assert run.ledger == Remove(p.ledger, Elems(p.recovered)) && run.fired == p.recovered
      && run.attempted == NumbersOf(batch);
    hide Attempts, Batch, RunRecovery, UniqueKeys, After, Settled, Remove, NumbersOf;
    assert forall x :: x in kept <==> x in l && least <= x.number;
  }

  lemma {:induction false} RecoveredAscend(l: seq<Entry>, batch: seq<Entry>, tries: nat -> Try, maxRetries: nat)
    requires Ascending(NumbersOf(batch))
    ensures Ascending(Attempts(l, batch, tries, maxRetries).recovered)
    ensures forall n :: n in Attempts(l, batch, tries, maxRetries).recovered ==> n in NumbersOf(batch)
  {
    if batch != [] {
      var init, e := batch[..|batch| - 1], batch[|batch| - 1];
      assert NumbersOf(batch) == NumbersOf(init) + [e.number];
      hide NumbersOf, Attempt, Outcome;
      AscendingInit(NumbersOf(init), e.number);
      RecoveredAscend(l, init, tries, maxRetries);
      AscendingConcat(Attempts(l, init, tries, maxRetries).recovered, [e.number]);
    }
  }

  lemma AscendingInit(ns: seq<nat>, n: nat)
    requires Ascending(ns + [n])
    ensures Ascending(ns) && forall m :: m in ns ==> m < n
  {
    forall i | 0 <= i < |ns| ensures ns[i] < n {
      assert (ns + [n])[i] < (ns + [n])[|ns|];
    }
    forall i, j | 0 <= i < j < |ns| ensures ns[i] < ns[j] {
      assert (ns + [n])[i] < (ns + [n])[j];
    }
  }

  /** A run attempts its blocks, and hands them over, oldest first, whatever fails. */
  lemma OldestFirst(l: seq<Entry>, cfg: Config, confirmations: nat, env: Env)
    requires UniqueKeys(l)
    ensures var run := RunRecovery(l, cfg, confirmations, env);
            Ascending(run.attempted) && Ascending(run.fired) && forall n :: n in run.fired ==> n in run.attempted
  {
    if env.latest.Some? && env.pruneLands && env.selectLands {
      var least := Least(cfg, confirmations, env.latest.value);
      var kept, batch := Prune(l, least), BatchOf(l, cfg, confirmations, env.latest.value);
      SelectUnique(l, NotOlder(least));
      BatchIsOldest(kept, cfg, SatSub(env.latest.value, confirmations));
      RecoveredAscend(kept, batch, env.tries, cfg.maxRetries);
      hide Attempts, Batch, NumbersOf, Ascending;
    }
  }

  /** Which numbers a run leaves in the ledger, whatever fails after the selection: those not older than
      the configured age, counted from the newest block with the required confirmations, except for the
      recovered ones if the removal lands. */
  lemma NumbersLeftIff(l: seq<Entry>, cfg: Config, confirmations: nat, env: Env, n: nat)
    requires UniqueKeys(l) && env.latest.Some? && env.pruneLands && env.selectLands
    ensures var run := RunRecovery(l, cfg, confirmations, env);
            n in Keys(run.ledger) <==>
              && n in Keys(l) && env.latest.value <= n + cfg.maxBlockAge + confirmations
              && !(env.removeLands && n in run.fired)
  {
    var least := Least(cfg, confirmations, env.latest.value);
    var kept, batch := Prune(l, least), BatchOf(l, cfg, confirmations, env.latest.value);
    SelectUnique(l, NotOlder(least));
    BatchIsOldest(kept, cfg, SatSub(env.latest.value, confirmations));
    UniqueNumbers(batch);
    AttemptsEffect(kept, batch, env.tries, cfg.maxRetries);
    var p := Attempts(kept, batch, env.tries, cfg.maxRetries);
    var run := RunRecovery(l, cfg, confirmations, env);
    assert run.fired == p.recovered
      && run.ledger == if env.removeLands then Remove(p.ledger, Elems(p.recovered)) else p.ledger;
    hide Attempts, Batch, RunRecovery, After;
    SelectedKeys(l, NotOlder(least), n);
    SelectedKeys(p.ledger, NotIn(Elems(p.recovered)), n);
    hide Keys;
  }

  lemma SelectedKeys(l: seq<Entry>, keep: Entry -> bool, n: nat)
    ensures n in Keys(Select(l, keep)) <==> exists e :: e in l && e.number == n && keep(e)
  {
  }

  /** What a run attempts: only entries that are Pending, below the retry limit and not older than the
      configured age. */
  lemma AttemptedOnlyIf(l: seq<Entry>, cfg: Config, confirmations: nat, env: Env, n: nat)
    requires UniqueKeys(l) && n in RunRecovery(l, cfg, confirmations, env).attempted
    ensures env.latest.Some? && env.latest.value <= n + cfg.maxBlockAge + confirmations
    ensures exists e :: e in l && e.number == n && e.status == Pending && e.retries < cfg.maxRetries
  {
    var least := Least(cfg, confirmations, env.latest.value);
    var batch := BatchOf(l, cfg, confirmations, env.latest.value);
    SelectUnique(l, NotOlder(least));
    BatchIsOldest(Prune(l, least), cfg, SatSub(env.latest.value, confirmations));
    assert n in NumbersOf(batch);
    hide Batch;
    var i :| 0 <= i < |batch| && batch[i].number == n;
    assert batch[i] in batch;
  }

  lemma UniqueNumbers(l: seq<Entry>)
    requires Ascending(NumbersOf(l))
    ensures UniqueKeys(l)
  {
    forall i, j | 0 <= i < j < |l| ensures l[i].number != l[j].number {
      assert NumbersOf(l)[i] < NumbersOf(l)[j];
    }
  }

  lemma LedgerAfter(kept: seq<Entry>, batch: seq<Entry>, tries: nat -> Try, maxRetries: nat)
    requires UniqueKeys(kept) && UniqueKeys(batch) && (forall e :: e in batch ==> e in kept)
    requires AllLand(tries, |batch|)
    ensures var p := Attempts(kept, batch, tries, maxRetries);
            forall x {:trigger x in Remove(p.ledger, Elems(p.recovered))} ::
              x in Remove(p.ledger, Elems(p.recovered)) <==>
                  || (x in kept && x.number !in NumbersOf(batch))
                  || (exists k ::
                        && 0 <= k < |batch| && !tries(k).answer.Found?
                        && x == Settled(batch[k], tries(k).answer, maxRetries))
  {
    AttemptsEffect(kept, batch, tries, maxRetries);
    RecoveredNumbers(kept, batch, tries, maxRetries);
    var p := Attempts(kept, batch, tries, maxRetries);
    hide Attempts, Updated, Outcome, Keys;
    forall x | x in p.ledger && x.number !in p.recovered
      ensures (x in kept && x.number !in NumbersOf(batch))
           || (exists k ::
               0 <= k < |batch| && !tries(k).answer.Found? && x == Settled(batch[k], tries(k).answer, maxRetries))
    {
      EntryAfter(kept, p, x, batch, tries, maxRetries);
    }
    forall x | x in kept && x.number !in NumbersOf(batch) ensures x in p.ledger && x.number !in p.recovered {
      EntryUntouched(kept, p, x, batch, tries, maxRetries);
    }
    forall k | 0 <= k < |batch| && !tries(k).answer.Found?
      ensures Settled(batch[k], tries(k).answer, maxRetries) in p.ledger && batch[k].number !in p.recovered
    {
      EntrySettled(kept, p, k, batch, tries, maxRetries);
    }
  }

  /** The two facts about a finished batch that determine the ledger. */
  ghost predicate Finished(kept: seq<Entry>, p: Progress, batch: seq<Entry>, tries: nat -> Try, maxRetries: nat) {
    && |p.ledger| == |kept|
    && (forall i :: 0 <= i < |kept| ==> After(kept[i], p.ledger[i], batch, tries, maxRetries))
    && (forall n :: n in p.recovered <==>
        exists k :: 0 <= k < |batch| && batch[k].number == n && tries(k).answer.Found?)
  }

  lemma EntryUntouched(kept: seq<Entry>, p: Progress, x: Entry, batch: seq<Entry>, tries: nat -> Try, maxRetries: nat)
    requires Finished(kept, p, batch, tries, maxRetries)
    requires x in kept && x.number !in NumbersOf(batch)
    ensures x in p.ledger && x.number !in p.recovered
  {
    var i :| 0 <= i < |kept| && kept[i] == x;
    assert After(kept[i], p.ledger[i], batch, tries, maxRetries);
    assert forall k :: 0 <= k < |batch| ==> NumbersOf(batch)[k] == batch[k].number;
  }

  lemma EntrySettled(kept: seq<Entry>, p: Progress, k: nat, batch: seq<Entry>, tries: nat -> Try, maxRetries: nat)
    requires Finished(kept, p, batch, tries, maxRetries) && UniqueKeys(batch) && AllLand(tries, |batch|)
    requires k < |batch| && !tries(k).answer.Found? && batch[k] in kept
    ensures Settled(batch[k], tries(k).answer, maxRetries) in p.ledger && batch[k].number !in p.recovered
  {
    var i :| 0 <= i < |kept| && kept[i] == batch[k];
    assert After(kept[i], p.ledger[i], batch, tries, maxRetries);
  }

  lemma EntryAfter(kept: seq<Entry>, p: Progress, x: Entry, batch: seq<Entry>, tries: nat -> Try, maxRetries: nat)
    requires Finished(kept, p, batch, tries, maxRetries) && AllLand(tries, |batch|)
    requires x in p.ledger && x.number !in p.recovered
    ensures (x in kept && x.number !in NumbersOf(batch))
         || (exists k ::
             0 <= k < |batch| && !tries(k).answer.Found? && x == Settled(batch[k], tries(k).answer, maxRetries))
  {
    var i :| 0 <= i < |kept| && p.ledger[i] == x;
    assert After(kept[i], x, batch, tries, maxRetries);
    if kept[i].number in NumbersOf(batch) {
      var k :| 0 <= k < |batch| && NumbersOf(batch)[k] == kept[i].number;
      assert x == Settled(batch[k], tries(k).answer, maxRetries);
    }
  }

  lemma {:induction false} RemoveCount(l: seq<Entry>, ns: set<nat>)
    requires UniqueKeys(l) && ns <= Keys(l)
    ensures |Remove(l, ns)| + |ns| == |l|
  {
    if l == [] {
      assert ns == {};
    } else {
      var e, rest := l[0], l[1..];
      assert Keys(rest) == Keys(l) - {e.number};
      if e.number in ns {
        RemoveCount(rest, ns - {e.number});
        SameRemoval(rest, ns, ns - {e.number});
      } else {
        RemoveCount(rest, ns);
      }
    }
  }

  lemma {:induction false} SameRemoval(l: seq<Entry>, a: set<nat>, b: set<nat>)
    requires forall e :: e in l ==> (e.number in a <==> e.number in b)
    ensures Remove(l, a) == Remove(l, b)
  {
    if l != [] {
      SameRemoval(l[1..], a, b);
    }
  }

  lemma {:induction false} OutcomeCounts(l: seq<Entry>, batch: seq<Entry>, tries: nat -> Try, maxRetries: nat)
    ensures var p := Attempts(l, batch, tries, maxRetries);
            |batch| == |p.recovered| + p.failed + |Requeued(batch, tries, maxRetries)|
  {
    if batch != [] {
      OutcomeCounts(l, batch[..|batch| - 1], tries, maxRetries);
    }
  }

  /** Bookkeeping of a healthy run: no entry is lost or counted twice, and every attempt ends as
      recovered, failed or requeued. */
  lemma Conservation(l: seq<Entry>, cfg: Config, confirmations: nat, env: Env)
    requires UniqueKeys(l) && Healthy(env)
    ensures var run := RunRecovery(l, cfg, confirmations, env);
            var latest := env.latest.value;
            var eligible := Eligible(Prune(l, Least(cfg, confirmations, latest)), Least(cfg, confirmations, latest),
              cfg.maxRetries);
            && run.result.Some?
            && var r := run.result.value;
            && |l| == |run.ledger| + r.pruned + r.recovered
            && r.attempted == r.recovered + r.failed + |Requeued(BatchOf(l, cfg, confirmations, latest), env.tries,
              cfg.maxRetries)|
            && r.attempted == |run.attempted|
            && r.attempted == (if |eligible| <= cfg.maxBlocksPerRun then |eligible| else cfg.maxBlocksPerRun)
            && r.recovered == |run.fired|
  {
    var latest := env.latest.value;
    var least := Least(cfg, confirmations, latest);
    var kept := Prune(l, least);
    SelectUnique(l, NotOlder(least));
    BatchIsOldest(kept, cfg, SatSub(latest, confirmations));
    var batch := BatchOf(l, cfg, confirmations, latest);
    UniqueNumbers(batch);
    AttemptsEffect(kept, batch, env.tries, cfg.maxRetries);
    RecoveredNumbers(kept, batch, env.tries, cfg.maxRetries);
    OutcomeCounts(kept, batch, env.tries, cfg.maxRetries);
    var p := Attempts(kept, batch, env.tries, cfg.maxRetries);
    DistinctCard(p.recovered);
    assert Elems(p.recovered) <= Keys(p.ledger) by {
      forall n | n in p.recovered ensures n in Keys(kept) {
        var k :| 0 <= k < |batch| && batch[k].number == n && env.tries(k).answer.Found?;
        assert batch[k] in kept;
      }
    }
    RemoveCount(p.ledger, Elems(p.recovered));
  }

  // ---------------------------------------------------------------------------------------
  // Runs whose writes do not land.

  /** No status write lands, and neither does the final removal. */
  ghost predicate NothingLands(env: Env) {
    !env.removeLands && forall k :: !env.tries(k).markLands && !env.tries(k).settleLands
  }

  lemma {:induction false} NothingWritten(l: seq<Entry>, batch: seq<Entry>, env: Env, maxRetries: nat)
    requires NothingLands(env)
    ensures Attempts(l, batch, env.tries, maxRetries).ledger == l
  {
    if batch != [] {
      NothingWritten(l, batch[..|batch| - 1], env, maxRetries);
    }
  }

  /** Which numbers fire depends on the answers alone. */
  lemma {:induction false} FiredFromAnswers(a: seq<Entry>, b: seq<Entry>, batch: seq<Entry>, s: nat -> Try,
      t: nat -> Try, maxRetries: nat)
    requires forall k :: s(k).answer == t(k).answer
    ensures Attempts(a, batch, s, maxRetries).recovered == Attempts(b, batch, t, maxRetries).recovered
  {
    if batch != [] {
      FiredFromAnswers(a, b, batch[..|batch| - 1], s, t, maxRetries);
    }
  }

  /** The marks are what protects a fired block: if no write of a run lands after it was pruned and
      selected, the next run at the same tip attempts the same blocks and, with the same answers,
      fires the same blocks again. */
  lemma NothingLandsRepeats(l: seq<Entry>, cfg: Config, confirmations: nat, env: Env, next: Env)
    requires NothingLands(env) && env.latest.Some? && env.pruneLands && env.selectLands
    requires next.latest == env.latest && next.pruneLands && next.selectLands
    requires forall k :: next.tries(k).answer == env.tries(k).answer
    ensures var run := RunRecovery(l, cfg, confirmations, env);
            var again := RunRecovery(run.ledger, cfg, confirmations, next);
            && run.ledger == Prune(l, Least(cfg, confirmations, env.latest.value))
            && again.attempted == run.attempted && again.fired == run.fired
  {
    var kept := Prune(l, Least(cfg, confirmations, env.latest.value));
    var batch := BatchOf(l, cfg, confirmations, env.latest.value);
    NothingWritten(kept, batch, env, cfg.maxRetries);
    SelectAll(kept, NotOlder(Least(cfg, confirmations, env.latest.value)));
    FiredFromAnswers(kept, kept, batch, env.tries, next.tries, cfg.maxRetries);
  }

  // ---------------------------------------------------------------------------------------
  // Which blocks are handed over twice.

  /** Eligible after a run, whatever landed, means eligible before it. */
  lemma NothingNewEligible(kept: seq<Entry>, batch: seq<Entry>, tries: nat -> Try, maxRetries: nat, x: Entry)
    requires UniqueKeys(kept) && UniqueKeys(batch) && (forall e :: e in batch ==> e in kept)
    requires forall e :: e in batch ==> e.status == Pending && e.retries < maxRetries
    requires x in Attempts(kept, batch, tries, maxRetries).ledger && x.status == Pending && x.retries < maxRetries
    ensures exists e :: e in kept && e.number == x.number && e.status == Pending && e.retries < maxRetries
  {
    AttemptsEffect(kept, batch, tries, maxRetries);
    hide Attempts;
    var ledger := Attempts(kept, batch, tries, maxRetries).ledger;
    var i :| 0 <= i < |ledger| && ledger[i] == x;
    assert After(kept[i], x, batch, tries, maxRetries);
    if kept[i].number in NumbersOf(batch) {
      var k :| 0 <= k < |batch| && NumbersOf(batch)[k] == kept[i].number;
      assert x == Written(batch[k], tries(k), maxRetries);
      assert batch[k] in kept;
    } else {
      assert kept[i] in kept;
    }
  }

  /** All eligible entries older than a chosen one are chosen. */
  lemma OlderFit(kept: seq<Entry>, cfg: Config, confirmed: nat, e: Entry, older: seq<nat>)
    requires UniqueKeys(kept) && e in Batch(kept, cfg, confirmed) && Distinct(older)
    requires forall n :: n in older ==> n < e.number && exists y ::
               y in Eligible(kept, SatSub(confirmed, cfg.maxBlockAge), cfg.maxRetries) && y.number == n
    ensures |older| < |Batch(kept, cfg, confirmed)|
  {
    var eligible, batch := Eligible(kept, SatSub(confirmed, cfg.maxBlockAge), cfg.maxRetries),
      Batch(kept, cfg, confirmed);
    BatchIsOldest(kept, cfg, confirmed);
    hide Batch, Select;
    var numbers := Elems(NumbersOf(batch));
    forall n | n in older ensures n in numbers {
      var y :| y in eligible && y.number == n;
      assert y in batch;
      NotInBatch(batch, y);
    }
    NotInBatch(batch, e);
    DistinctCard(older);
    ElemsCard(NumbersOf(batch));
    assert e.number !in Elems(older) && Elems(older) + {e.number} <= numbers;
    assert |Elems(older) + {e.number}| == |older| + 1;
    SubsetCard(Elems(older) + {e.number}, numbers);
  }

  /** A chosen entry that is still eligible is chosen again, if nothing became eligible meanwhile. */
  lemma ChosenAgain(kept: seq<Entry>, later: seq<Entry>, cfg: Config, confirmed: nat, e: Entry)
    requires UniqueKeys(kept) && UniqueKeys(later) && e in Batch(kept, cfg, confirmed)
    requires e in Eligible(later, SatSub(confirmed, cfg.maxBlockAge), cfg.maxRetries)
    requires forall x :: x in Eligible(later, SatSub(confirmed, cfg.maxBlockAge), cfg.maxRetries) ==> exists y ::
               y in Eligible(kept, SatSub(confirmed, cfg.maxBlockAge), cfg.maxRetries) && y.number == x.number
    ensures e in Batch(later, cfg, confirmed)
  {
    var again := Batch(later, cfg, confirmed);
    if e !in again {
      FullBatch(later, cfg, confirmed, e);
      BatchIsOldest(later, cfg, confirmed);
      BatchIsOldest(kept, cfg, confirmed);
      hide Batch, Select;
      AscendingDistinct(NumbersOf(again));
      forall n | n in NumbersOf(again)
        ensures n < e.number && exists y ::
                  y in Eligible(kept, SatSub(confirmed, cfg.maxBlockAge), cfg.maxRetries) && y.number == n
      {
        var i :| 0 <= i < |again| && NumbersOf(again)[i] == n;
        assert again[i] in again;
      }
      OlderFit(kept, cfg, confirmed, e, NumbersOf(again));
    }
  }

  lemma AscendingDistinct(ns: seq<nat>)
    requires Ascending(ns)
    ensures Distinct(ns)
  {
  }

  ghost predicate HasPending(l: seq<Entry>, n: nat) {
    exists e :: e in l && e.number == n && e.status == Pending
  }

  /** A block handed over in a run is still Pending after the run exactly if none of its three
      protecting writes landed: the Recovering mark, the Recovered mark, the removal. */
  lemma PendingAfterRunIff(l: seq<Entry>, cfg: Config, confirmations: nat, env: Env, k: nat)
    requires UniqueKeys(l) && env.latest.Some? && env.pruneLands && env.selectLands
    requires k < |BatchOf(l, cfg, confirmations, env.latest.value)| && env.tries(k).answer.Found?
    ensures var run := RunRecovery(l, cfg, confirmations, env);
            var e, t := BatchOf(l, cfg, confirmations, env.latest.value)[k], env.tries(k);
            && UniqueKeys(run.ledger)
            && (HasPending(run.ledger, e.number) <==> !t.markLands && !t.settleLands && !env.removeLands)
            && (HasPending(run.ledger, e.number) ==> e in run.ledger)
  {
    var kept := Prune(l, Least(cfg, confirmations, env.latest.value));
    var batch := BatchOf(l, cfg, confirmations, env.latest.value);
    SelectUnique(l, NotOlder(Least(cfg, confirmations, env.latest.value)));
    BatchIsOldest(kept, cfg, SatSub(env.latest.value, confirmations));
    UniqueNumbers(batch);
    hide Attempts, Batch, Prune, After, UniqueKeys, Written;
    AttemptedEntry(kept, batch, env.tries, cfg.maxRetries, k);
    var p, w := Attempts(kept, batch, env.tries, cfg.maxRetries), Written(batch[k], env.tries(k), cfg.maxRetries);
    SelectUnique(p.ledger, NotIn(Elems(p.recovered)));
    WrittenPending(batch[k], env.tries(k), cfg.maxRetries);
    if env.removeLands {
      assert forall x :: x in Remove(p.ledger, Elems(p.recovered)) ==> x.number != batch[k].number;
    }
  }

  lemma AttemptedEntry(kept: seq<Entry>, batch: seq<Entry>, tries: nat -> Try, maxRetries: nat, k: nat)
    requires UniqueKeys(kept) && UniqueKeys(batch) && (forall e :: e in batch ==> e in kept)
    requires k < |batch| && tries(k).answer.Found?
    ensures var p, w := Attempts(kept, batch, tries, maxRetries), Written(batch[k], tries(k), maxRetries);
            && UniqueKeys(p.ledger) && batch[k].number in p.recovered && w.number == batch[k].number && w in p.ledger
            && (forall x :: x in p.ledger && x.number == batch[k].number ==> x == w)
  {
    AttemptsEffect(kept, batch, tries, maxRetries);
    RecoveredNumbers(kept, batch, tries, maxRetries);
    hide Attempts;
    var p := Attempts(kept, batch, tries, maxRetries);
    assert batch[k] in batch;
    var i :| 0 <= i < |kept| && kept[i] == batch[k];
    assert After(kept[i], p.ledger[i], batch, tries, maxRetries);
    assert p.ledger[i] == Written(batch[k], tries(k), maxRetries);
    forall x | x in p.ledger && x.number == batch[k].number ensures x == p.ledger[i] {
      UniqueEntry(p.ledger, x, p.ledger[i]);
    }
  }

  lemma WrittenPending(e: Entry, t: Try, maxRetries: nat)
    requires e.status == Pending && t.answer.Found?
    ensures Written(e, t, maxRetries).status == Pending <==> !t.markLands && !t.settleLands
    ensures !t.markLands && !t.settleLands ==> Written(e, t, maxRetries) == e
  {
  }

  /** The exact condition for a second delivery: a block handed over by one run is attempted again by
      the next run at the same tip if and only if none of its three protecting writes landed. It holds
      for every block of any batch, whatever happened to the other writes of the run. */
  lemma HandedOverAgainIff(l: seq<Entry>, cfg: Config, confirmations: nat, env: Env, next: Env, k: nat)
    requires UniqueKeys(l) && env.latest.Some? && env.pruneLands && env.selectLands
    requires next.latest == env.latest && next.pruneLands && next.selectLands
    requires k < |BatchOf(l, cfg, confirmations, env.latest.value)| && env.tries(k).answer.Found?
    ensures var run := RunRecovery(l, cfg, confirmations, env);
            var n, t := BatchOf(l, cfg, confirmations, env.latest.value)[k].number, env.tries(k);
            && n in run.fired
            && (n in RunRecovery(run.ledger, cfg, confirmations, next).attempted
                <==> !t.markLands && !t.settleLands && !env.removeLands)
  {
    var run := RunRecovery(l, cfg, confirmations, env);
    var e := BatchOf(l, cfg, confirmations, env.latest.value)[k];
    PendingAfterRunIff(l, cfg, confirmations, env, k);
    FiredIsFound(l, cfg, confirmations, env, k);
    AttemptedIsPending(run.ledger, cfg, confirmations, next, e.number);
    if HasPending(run.ledger, e.number) {
      StaysChosen(l, cfg, confirmations, env, e);
    }
    hide HasPending, Batch;
  }

  lemma FiredIsFound(l: seq<Entry>, cfg: Config, confirmations: nat, env: Env, k: nat)
    requires env.latest.Some? && env.pruneLands && env.selectLands
    requires k < |BatchOf(l, cfg, confirmations, env.latest.value)| && env.tries(k).answer.Found?
    ensures BatchOf(l, cfg, confirmations, env.latest.value)[k].number in RunRecovery(l, cfg, confirmations, env).fired
  {
    RecoveredNumbers(Prune(l, Least(cfg, confirmations, env.latest.value)),
                     BatchOf(l, cfg, confirmations, env.latest.value), env.tries, cfg.maxRetries);
    hide Attempts, Batch, Prune;
  }

  lemma AttemptedIsPending(l: seq<Entry>, cfg: Config, confirmations: nat, env: Env, n: nat)
    requires UniqueKeys(l) && env.latest.Some? && env.pruneLands && env.selectLands
    ensures n in RunRecovery(l, cfg, confirmations, env).attempted ==> HasPending(l, n)
    ensures forall e :: e in BatchOf(l, cfg, confirmations, env.latest.value) ==>
              e.number in RunRecovery(l, cfg, confirmations, env).attempted
  {
    var batch := BatchOf(l, cfg, confirmations, env.latest.value);
    var kept := Prune(l, Least(cfg, confirmations, env.latest.value));
    SelectUnique(l, NotOlder(Least(cfg, confirmations, env.latest.value)));
    BatchIsOldest(kept, cfg, SatSub(env.latest.value, confirmations));
    hide Attempts, Batch;
    if n in NumbersOf(batch) {
      var i :| 0 <= i < |batch| && NumbersOf(batch)[i] == n;
      assert batch[i] in batch;
    }
    forall e | e in batch ensures e.number in NumbersOf(batch) {
      NotInBatch(batch, e);
    }
  }

  lemma StaysChosen(l: seq<Entry>, cfg: Config, confirmations: nat, env: Env, e: Entry)
    requires UniqueKeys(l) && env.latest.Some? && env.pruneLands && env.selectLands
    requires e in BatchOf(l, cfg, confirmations, env.latest.value)
    requires e in RunRecovery(l, cfg, confirmations, env).ledger
    requires UniqueKeys(RunRecovery(l, cfg, confirmations, env).ledger)
    ensures e in BatchOf(RunRecovery(l, cfg, confirmations, env).ledger, cfg, confirmations, env.latest.value)
  {
    var confirmed := SatSub(env.latest.value, confirmations);
    var least := Least(cfg, confirmations, env.latest.value);
    var kept, batch := Prune(l, least), BatchOf(l, cfg, confirmations, env.latest.value);
    var ledger := RunRecovery(l, cfg, confirmations, env).ledger;
    var later := Prune(ledger, least);
    SelectUnique(l, NotOlder(least));
    SelectUnique(ledger, NotOlder(least));
    BatchIsOldest(kept, cfg, confirmed);
    UniqueNumbers(batch);
    forall x | x in Eligible(later, least, cfg.maxRetries)
      ensures exists y :: y in Eligible(kept, least, cfg.maxRetries) && y.number == x.number
    {
      assert x in Attempts(kept, batch, env.tries, cfg.maxRetries).ledger;
      NothingNewEligible(kept, batch, env.tries, cfg.maxRetries, x);
    }
    hide Attempts, Batch;
    ChosenAgain(kept, later, cfg, confirmed, e);
  }
}
