/** The client pools: get-or-create with double-checked locking. Blockchain clients and
    notification clients follow the same protocol, keyed by network slug or by configuration text. */
module ClientPool {
  import opened Basics

  type Key = string
  type Client = nat

  /** Result of one call without interference: the client returned and the clients stored. */
  function GetOrCreateAlone(clients: map<Key, Client>, key: Key, created: Option<Client>)
      : (Option<Client>, map<Key, Client>) {
    if key in clients then (Some(clients[key]), clients)
    else match created
         case Some(c) => (Some(c), clients[key := c])
         case None => (None, clients)
  }

  class ClientStorage {
    var clients: map<Key, Client>

    constructor ()
      ensures clients == map[]
    {
      clients := map[];
    }

    /** `created` is what the creation function yields, if it comes to that; `meanwhile` holds the
        clients other callers store between the read lock and the write lock. */
    method GetOrCreateClient(key: Key, created: Option<Client>, meanwhile: map<Key, Client>) returns (r: Option<Client>)
      requires meanwhile.Keys !! clients.Keys
      modifies this
      ensures (r, clients) ==
              GetOrCreateAlone(if key in old(clients) then old(clients) else old(clients) + meanwhile, key, created)
    {
      if key in clients {
        return Some(clients[key]);
      }
      clients := clients + meanwhile;
      if key in clients {
        return Some(clients[key]);
      }
      if created.None? {
        return None;
      }
      clients := clients[key := created.value];
      r := created;
    }
  }

  // ---------------------------------------------------------------------------------------
  // Any number of callers, interleaved at every lock operation and at the awaited creation.

  /** Where a call stands: about to take the read lock; past a fast-path miss; holding the write
      lock before the second check; creating, still holding it; or finished. */
  datatype Caller =
    | Entering(key: Key)
    | Missed(key: Key)
    | Holding(key: Key)
    | Creating(key: Key)
    | Served(key: Key, client: Client)
    | Rejected(key: Key)

  /** `created` records every successful creation; client names are handed out in order. */
  datatype Pool = Pool(clients: map<Key, Client>, callers: map<nat, Caller>, writer: Option<nat>,
                       created: seq<(Key, Client)>)

  datatype Event =
    | Call(id: nat, key: Key)
    | FastCheck(id: nat)
    | TakeWriteLock(id: nat)
    | SecondCheck(id: nat)
    | Create(id: nat, succeeds: bool)
    | Cancel(id: nat)

  const EMPTY := Pool(map[], map[], None, [])

  function Phase(s: Pool, id: nat): Option<Caller> {
    if id in s.callers then Some(s.callers[id]) else None
  }

  function Move(s: Pool, id: nat, to: Caller): Pool {
    s.(callers := s.callers[id := to])
  }

  /** One step; an event that does not fit changes nothing. Readers run only while nobody holds the
      write lock; a call that is dropped while holding the lock releases it. */
  function Step(s: Pool, ev: Event): Pool {
    match (ev, Phase(s, ev.id))
    case (Call(id, key), None) => Move(s, id, Entering(key))
    case (FastCheck(id), Some(Entering(key))) =>
      if s.writer.Some? then s
      else if key in s.clients then Move(s, id, Served(key, s.clients[key]))
      else Move(s, id, Missed(key))
    case (TakeWriteLock(id), Some(Missed(key))) =>
      if s.writer.Some? then s else Move(s, id, Holding(key)).(writer := Some(id))
    case (SecondCheck(id), Some(Holding(key))) =>
      if key in s.clients then Move(s, id, Served(key, s.clients[key])).(writer := None)
      else Move(s, id, Creating(key))
    case (Create(id, succeeds), Some(Creating(key))) =>
      if succeeds then
        var c := |s.created|;
        Move(s, id, Served(key, c)).(writer := None, clients := s.clients[key := c], created := s.created + [(key, c)])
      else Move(s, id, Rejected(key)).(writer := None)
    case (Cancel(id), Some(caller)) =>
      if caller.Holding? || caller.Creating? then Move(s, id, Rejected(caller.key)).(writer := None)
      else if caller.Entering? || caller.Missed? then Move(s, id, Rejected(caller.key))
      else s
    case _ => s
  }

  function Exec(s: Pool, evs: seq<Event>): Pool
    decreases |evs|
  {
    if evs == [] then s else Exec(Step(s, evs[0]), evs[1..])
  }

  /** The write lock excludes: its holder is the only call between lock and release, and a creating
      call's key is absent. What is stored, what was created and what callers got agree. */
  ghost predicate Inv(s: Pool) {
    && (forall id :: id in s.callers && (s.callers[id].Holding? || s.callers[id].Creating?) ==> s.writer == Some(id))
    && (s.writer.Some? ==>
          && s.writer.value in s.callers
          && (s.callers[s.writer.value].Holding? || s.callers[s.writer.value].Creating?))
    && (forall id :: id in s.callers && s.callers[id].Creating? ==> s.callers[id].key !in s.clients)
    && (forall id :: id in s.callers && s.callers[id].Served? ==>
          s.callers[id].key in s.clients && s.clients[s.callers[id].key] == s.callers[id].client)
    && (forall i :: 0 <= i < |s.created| ==>
          s.created[i].0 in s.clients && s.clients[s.created[i].0] == s.created[i].1 == i)
    && (forall key :: key in s.clients ==> s.clients[key] < |s.created| && s.created[s.clients[key]].0 == key)
  }

  lemma InvStep(s: Pool, ev: Event)
    requires Inv(s)
    ensures Inv(Step(s, ev))
    ensures forall key :: key in s.clients ==> key in Step(s, ev).clients && Step(s, ev).clients[key] == s.clients[key]
  {
    hide Inv;
    match (ev, Phase(s, ev.id))
    case (Call(id, key), None) => MoveKeeps(s, id, Entering(key));
    case (FastCheck(id), Some(Entering(key))) =>
      if s.writer.None? {
        MoveKeeps(s, id, if key in s.clients then Served(key, s.clients[key]) else Missed(key));
      }
    case (TakeWriteLock(id), Some(Missed(_))) => if s.writer.None? { LockKeeps(s, id); }
    case (SecondCheck(id), Some(Holding(key))) =>
      if key in s.clients {
        ReleaseKeeps(s, id, Served(key, s.clients[key]));
      } else {
        BeginCreationKeeps(s, id);
      }
    case (Create(id, succeeds), Some(Creating(key))) =>
      if succeeds {
        CreationKeeps(s, id);
      } else {
        ReleaseKeeps(s, id, Rejected(key));
      }
    case (Cancel(id), Some(caller)) =>
      if caller.Holding? || caller.Creating? {
        ReleaseKeeps(s, id, Rejected(caller.key));
      } else if caller.Entering? || caller.Missed? {
        MoveKeeps(s, id, Rejected(caller.key));
      }
    case _ =>
  }

  predicate Locking(caller: Caller) {
    caller.Holding? || caller.Creating?
  }

  lemma MoveKeeps(s: Pool, id: nat, to: Caller)
    requires Inv(s) && !(id in s.callers && Locking(s.callers[id])) && !Locking(to)
    requires to.Served? ==> to.key in s.clients && s.clients[to.key] == to.client
    ensures Inv(Move(s, id, to))
  {
  }

  lemma ReleaseKeeps(s: Pool, id: nat, to: Caller)
    requires Inv(s) && id in s.callers && Locking(s.callers[id]) && !Locking(to)
    requires to.Served? ==> to.key in s.clients && s.clients[to.key] == to.client
    ensures Inv(Move(s, id, to).(writer := None))
  {
  }

  lemma LockKeeps(s: Pool, id: nat)
    requires Inv(s) && id in s.callers && s.callers[id].Missed? && s.writer == None
    ensures Inv(Step(s, TakeWriteLock(id)))
  {
  }

  lemma BeginCreationKeeps(s: Pool, id: nat)
    requires Inv(s) && id in s.callers && s.callers[id].Holding? && s.callers[id].key !in s.clients
    ensures Inv(Step(s, SecondCheck(id)))
  {
  }

  lemma CreationKeeps(s: Pool, id: nat)
    requires Inv(s) && id in s.callers && s.callers[id].Creating?
    ensures Inv(Step(s, Create(id, true))) && s.callers[id].key !in s.clients
  {
  }

  lemma {:induction false} InvAlong(s: Pool, evs: seq<Event>)
    requires Inv(s)
    ensures Inv(Exec(s, evs))
    ensures forall key :: key in s.clients ==>
            key in Exec(s, evs).clients && Exec(s, evs).clients[key] == s.clients[key]
    decreases |evs|
  {
    if evs != [] {
      InvStep(s, evs[0]);
      InvAlong(Step(s, evs[0]), evs[1..]);
    }
  }

  /** In every interleaving of any number of callers: at most one successful creation per key; two
      callers served for the same key hold the same client, which is the stored one; clients of
      different keys differ; and whatever happens next, a stored client is never replaced. */
  lemma OneClientPerKey(evs: seq<Event>, more: seq<Event>)
    ensures var s := Exec(EMPTY, evs);
            && (forall i, j :: 0 <= i < j < |s.created| ==> s.created[i].0 != s.created[j].0)
            && (forall a, b :: a in s.callers && b in s.callers && s.callers[a].Served? && s.callers[b].Served? ==>
                  (s.callers[a].key == s.callers[b].key <==> s.callers[a].client == s.callers[b].client))
            && (forall a :: a in s.callers && s.callers[a].Served? ==>
                  s.callers[a].key in s.clients && s.clients[s.callers[a].key] == s.callers[a].client)
            && (forall key :: key in s.clients ==>
                  key in Exec(s, more).clients && Exec(s, more).clients[key] == s.clients[key])
  {
    InvAlong(EMPTY, evs);
    InvAlong(Exec(EMPTY, evs), more);
  }

  /** At most one call at a time is past taking the write lock, so creations never overlap, not even
      for different keys. */
  lemma CreationsExclude(evs: seq<Event>, a: nat, b: nat)
    ensures var s := Exec(EMPTY, evs);
            (&& Phase(s, a).Some? && Phase(s, a).value.Creating?
             && Phase(s, b).Some? && (Phase(s, b).value.Creating? || Phase(s, b).value.Holding?)) ==> a == b
  {
    InvAlong(EMPTY, evs);
  }

  /** The clients change only by a successful creation, which adds exactly one absent key. */
  lemma OnlyCreationStores(s: Pool, ev: Event)
    requires Inv(s)
    ensures Step(s, ev).clients != s.clients ==>
              && ev.Create? && ev.succeeds
              && Phase(s, ev.id).Some? && Phase(s, ev.id).value.Creating?
              && var key := Phase(s, ev.id).value.key;
              key !in s.clients && Step(s, ev).clients == s.clients[key := |s.created|]
  {
  }

  /** A call whose client is stored is served with it: by the fast check while nobody holds the write lock,
      and by the second check, which gives the lock back. */
  lemma StoredIsServed(s: Pool, id: nat, key: Key)
    requires key in s.clients
    ensures Phase(s, id) == Some(Entering(key)) && s.writer == None ==>
              Step(s, FastCheck(id)) == s.(callers := s.callers[id := Served(key, s.clients[key])])
    ensures Phase(s, id) == Some(Holding(key)) ==>
              Step(s, SecondCheck(id)) == s.(callers := s.callers[id := Served(key, s.clients[key])], writer := None)
  {
  }

  /** A call is rejected only when its own creation fails or when it is dropped. */
  lemma RejectedOnlyIf(s: Pool, ev: Event, id: nat, key: Key)
    requires Phase(s, id) != Some(Rejected(key)) && Phase(Step(s, ev), id) == Some(Rejected(key))
    ensures ev.id == id
    ensures ev.Cancel? || (ev == Create(id, false) && Phase(s, id) == Some(Creating(key)))
  {
  }

  /** Dropping an unfinished call ends it, wherever it stands, and never leaves it holding the lock; nobody
      else loses the lock by it. */
  lemma DropReleases(evs: seq<Event>, id: nat)
    requires var phase := Phase(Exec(EMPTY, evs), id); phase.Some? && !phase.value.Served?
    ensures var s := Exec(EMPTY, evs);
            var s' := Step(s, Cancel(id));
            && Phase(s', id) == Some(Rejected(s.callers[id].key))
            && s'.writer == (if s.writer == Some(id) then None else s.writer)
            && s'.clients == s.clients
  {
    InvAlong(EMPTY, evs);
    hide Exec;
  }

  /** From any reachable state in which the lock is free, a call that has missed gets a client by its own
      next steps, if its creation succeeds: the stored one, or a new one. */
  lemma MissedIsServed(evs: seq<Event>, id: nat, key: Key)
    requires var s := Exec(EMPTY, evs); s.writer == None && Phase(s, id) == Some(Missed(key))
    ensures var s := Exec(EMPTY, evs);
            var s' := Step(Step(Step(s, TakeWriteLock(id)), SecondCheck(id)), Create(id, true));
            && s'.writer == None && key in s'.clients && Phase(s', id) == Some(Served(key, s'.clients[key]))
            && (key in s.clients ==> s'.created == s.created)
  {
    hide Exec;
  }

  lemma ExecFive(s: Pool, e1: Event, e2: Event, e3: Event, e4: Event, e5: Event)
    ensures Exec(s, [e1, e2, e3, e4, e5]) == Step(Step(Step(Step(Step(s, e1), e2), e3), e4), e5)
  {
    hide Step;
    var s1 := Step(s, e1);
    var s2 := Step(s1, e2);
    var s3 := Step(s2, e3);
    var s4 := Step(s3, e4);
    assert [e1, e2, e3, e4, e5][1..] == [e2, e3, e4, e5] && [e2, e3, e4, e5][1..] == [e3, e4, e5];
    assert [e3, e4, e5][1..] == [e4, e5] && [e4, e5][1..] == [e5] && [e5][1..] == [];
    assert Exec(s4, [e5]) == Step(s4, e5);
    assert Exec(s3, [e4, e5]) == Exec(s4, [e5]);
    assert Exec(s2, [e3, e4, e5]) == Exec(s3, [e4, e5]);
    assert Exec(s1, [e2, e3, e4, e5]) == Exec(s2, [e3, e4, e5]);
  }

  /** A call that runs alone behaves like the sequential code. */
  lemma AloneIsPath(s: Pool, id: nat, key: Key, succeeds: bool)
    requires id !in s.callers && s.writer == None
    ensures var s' := Exec(s, [Call(id, key), FastCheck(id), TakeWriteLock(id), SecondCheck(id), Create(id, succeeds)]);
            var alone := GetOrCreateAlone(s.clients, key, if succeeds then Some(|s.created|) else None);
            && s'.clients == alone.1 && s'.writer == None
            && Phase(s', id) == Some(if alone.0.Some? then Served(key, alone.0.value) else Rejected(key))
  {
    ExecFive(s, Call(id, key), FastCheck(id), TakeWriteLock(id), SecondCheck(id), Create(id, succeeds));
    var s1 := Step(s, Call(id, key));
    assert Phase(s1, id) == Some(Entering(key));
    var s2 := Step(s1, FastCheck(id));
    if key !in s.clients {
      assert Phase(s2, id) == Some(Missed(key));
      var s3 := Step(s2, TakeWriteLock(id));
      assert Phase(s3, id) == Some(Holding(key));
      var s4 := Step(s3, SecondCheck(id));
      assert Phase(s4, id) == Some(Creating(key));
    }
  }
}
