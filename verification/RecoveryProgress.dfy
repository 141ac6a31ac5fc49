/** What a recovery run costs: the retries that waiting entries have left. */
module RecoveryProgress {
  import opened Basics
  import opened Ledger
  import opened Recovery

  function Sum(l: seq<Entry>, w: Entry -> nat): nat {
    if l == [] then 0 else w(l[0]) + Sum(l[1..], w)
  }

  /** Attempts an entry may still cost, counting only entries whose number is below the limit. */
  function Budget(maxRetries: nat, limit: Option<nat>): Entry -> nat {
    (e: Entry) => if e.status == Pending && e.retries < maxRetries && (limit.Some? ==> e.number < limit.value)
      then maxRetries - e.retries else 0
  }

  lemma {:induction false} SumConcat(a: seq<Entry>, b: seq<Entry>, w: Entry -> nat)
    ensures Sum(a + b, w) == Sum(a, w) + Sum(b, w)
  {
    if a == [] {
      assert a + b == b;
    } else {
      SumConcat(a[1..], b, w);
      assert (a + b)[1..] == a[1..] + b;
    }
  }

  lemma {:induction false} SumSelect(l: seq<Entry>, keep: Entry -> bool, w: Entry -> nat)
    ensures Sum(Select(l, keep), w) <= Sum(l, w)
  {
    if l != [] {
      SumSelect(l[1..], keep, w);
    }
  }

  lemma {:induction false} SumSetStatus(l: seq<Entry>, e: Entry, status: Status, w: Entry -> nat)
    requires UniqueKeys(l) && e in l
    ensures Sum(SetStatus(l, e.number, status), w) + w(e) == Sum(l, w) + w(Updated(e, status))
  {
    if l[0].number == e.number {
      UniqueEntry(l, l[0], e);
    } else {
      assert e in l[1..];
      SumSetStatus(l[1..], e, status, w);
    }
  }

  /** One attempt uses up at least one unit of budget of an eligible entry. */
  lemma AttemptCosts(l: seq<Entry>, e: Entry, t: Try, maxRetries: nat, limit: Option<nat>)
    requires UniqueKeys(l) && e in l && t.markLands && t.settleLands
    requires e.status == Pending && e.retries < maxRetries
    ensures var w := Budget(maxRetries, limit);
            Sum(Attempt(l, e, t, maxRetries), w) + (if w(e) > 0 then 1 else 0) <= Sum(l, w)
  {
    var w := Budget(maxRetries, limit);
    var marked, e' := SetStatus(l, e.number, Recovering), Updated(e, Recovering);
    SumSetStatus(l, e, Recovering, w);
    SetStatusMembers(l, e.number, Recovering);
    var i :| 0 <= i < |l| && l[i] == e;
    assert marked[i] == e';
    SumSetStatus(marked, e', Outcome(e, t.answer, maxRetries), w);
  }

  /** Entries of a batch that lie below the limit. */
  function CountBelow(batch: seq<Entry>, limit: Option<nat>): nat {
    if batch == [] then 0
    else
      var before := CountBelow(batch[..|batch| - 1], limit);
      if limit.Some? && limit.value <= batch[|batch| - 1].number then before else before + 1
  }

  lemma {:induction false} AttemptsCost(l: seq<Entry>, batch: seq<Entry>, tries: nat -> Try, maxRetries: nat,
      limit: Option<nat>)
    requires UniqueKeys(l) && UniqueKeys(batch) && AllLand(tries, |batch|)
    requires forall e :: e in batch ==> e in l && e.status == Pending && e.retries < maxRetries
    ensures var w := Budget(maxRetries, limit);
            Sum(Attempts(l, batch, tries, maxRetries).ledger, w) + CountBelow(batch, limit) <= Sum(l, w)
  {
    if batch != [] {
      var k := |batch| - 1;
      var before, e := batch[..k], batch[k];
      assert forall i :: 0 <= i < k ==> before[i] == batch[i];
      AttemptsCost(l, before, tries, maxRetries, limit);
      AttemptsEffect(l, before, tries, maxRetries);
      assert e in batch;
      var mid := Attempts(l, before, tries, maxRetries).ledger;
      UntouchedSoFar(l, mid, batch, tries, maxRetries);
      AttemptCosts(mid, e, tries(k), maxRetries, limit);
    }
  }

  lemma {:induction false} CountBelowAll(batch: seq<Entry>, limit: Option<nat>)
    requires forall e :: e in batch ==> limit.None? || e.number < limit.value
    ensures CountBelow(batch, limit) == |batch|
  {
    if batch != [] {
      assert batch[|batch| - 1] in batch;
      CountBelowAll(batch[..|batch| - 1], limit);
    }
  }

  /** A run whose writes land uses up, below any limit, at least one unit of budget per attempt
      below that limit. */
  lemma RunCosts(l: seq<Entry>, cfg: Config, confirmations: nat, env: Env, limit: Option<nat>)
    requires UniqueKeys(l) && WritesLand(env)
    ensures var run := RunRecovery(l, cfg, confirmations, env);
            var w := Budget(cfg.maxRetries, limit);
            && UniqueKeys(run.ledger)
            && Sum(run.ledger, w) <= Sum(l, w)
            && ((forall n :: n in run.attempted ==> limit.None? || n < limit.value) ==>
                  Sum(run.ledger, w) + |run.attempted| <= Sum(l, w))
  {
    if env.latest.Some? && env.pruneLands {
      var latest := env.latest.value;
      var least := Least(cfg, confirmations, latest);
      var kept := Prune(l, least);
      SelectUnique(l, NotOlder(least));
      SumSelect(l, NotOlder(least), Budget(cfg.maxRetries, limit));
      if env.selectLands {
        RunOutcome(l, cfg, confirmations, env);
        BatchIsOldest(kept, cfg, SatSub(latest, confirmations));
        var batch := BatchOf(l, cfg, confirmations, latest);
        UniqueNumbers(batch);
        BatchCosts(kept, batch, env, cfg.maxRetries, limit);
      }
    }
  }

  lemma BatchCosts(kept: seq<Entry>, batch: seq<Entry>, env: Env, maxRetries: nat, limit: Option<nat>)
    requires UniqueKeys(kept) && UniqueKeys(batch) && WritesLand(env)
    requires forall e :: e in batch ==> e in kept && e.status == Pending && e.retries < maxRetries
    ensures var p := Attempts(kept, batch, env.tries, maxRetries);
            var end := Sum(Remove(p.ledger, Elems(p.recovered)), Budget(maxRetries, limit));
            && end <= Sum(kept, Budget(maxRetries, limit))
            && ((forall n :: n in NumbersOf(batch) ==> limit.None? || n < limit.value) ==>
                  end + |batch| <= Sum(kept, Budget(maxRetries, limit)))
  {
    AttemptsCost(kept, batch, env.tries, maxRetries, limit);
    var p := Attempts(kept, batch, env.tries, maxRetries);
    SumSelect(p.ledger, NotIn(Elems(p.recovered)), Budget(maxRetries, limit));
    if forall n :: n in NumbersOf(batch) ==> limit.None? || n < limit.value {
      forall e | e in batch ensures limit.None? || e.number < limit.value {
        var i :| 0 <= i < |batch| && batch[i] == e;
        assert NumbersOf(batch)[i] in NumbersOf(batch);
      }
      CountBelowAll(batch, limit);
    }
  }

  lemma {:induction false} SumBounded(l: seq<Entry>, maxRetries: nat, limit: Option<nat>)
    ensures Sum(l, Budget(maxRetries, limit)) <= |l| * maxRetries
    ensures limit.Some? && (forall e :: e in l ==> limit.value <= e.number) ==> Sum(l, Budget(maxRetries, limit)) == 0
  {
    if l != [] {
      SumBounded(l[1..], maxRetries, limit);
      assert |l| * maxRetries == maxRetries + |l[1..]| * maxRetries;
      assert l[0] in l;
    }
  }
}
