/** The session life cycle as a state machine over ids.

    A `Pool` is what the manager and its in-memory store hold: one record for every id
    minted so far, and the set of ids present in the store.  A `Machine` adds the clock and
    the requests in flight; its steps are the atomic actions of concurrent requests.  The
    classes of module Sessions hold real, shared objects and are proved to refine this. */
module SessionSpec {
  import opened Basics

  type Id = string

  /** A session value: Go's `any`, of which only strings are inspected. */
  datatype Value = Text(text: string) | Opaque(tag: int)

  datatype Rec = Rec(
    values: map<string, Value>,
    createdAt: int,
    expiresAt: int,
    isNew: bool,
    modified: bool)

  datatype Pool = Pool(recs: map<Id, Rec>, stored: set<Id>)

  // ---- what the manager does to a pool ----

  /** Every stored id was minted, and every expiry is the one fixed at creation. */
  ghost predicate PoolValid(p: Pool, maxAge: int) {
    && p.stored <= p.recs.Keys
    && forall id <- p.recs :: p.recs[id].expiresAt == p.recs[id].createdAt + maxAge
  }

  /** A lookup finds a stored record unless the clock is strictly past its expiry. */
  predicate Hits(p: Pool, now: int, id: Id) {
    id in p.stored && id in p.recs && now <= p.recs[id].expiresAt
  }

  /** The id that a request's cookie leads to, when it leads to a session at all. */
  function Target(p: Pool, now: int, cookie: Option<Id>): Option<Id> {
    if cookie.Some? && cookie.value != "" && Hits(p, now, cookie.value) then cookie else None
  }

  function NewRec(now: int, maxAge: int): Rec {
    Rec(map[], now, now + maxAge, true, true)
  }

  function LoadedId(p: Pool, now: int, cookie: Option<Id>, newId: Id): Id {
    var t := Target(p, now, cookie);
    if t.Some? then t.value else newId
  }

  function PoolLoad(p: Pool, now: int, maxAge: int, cookie: Option<Id>, newId: Id): Pool {
    var t := Target(p, now, cookie);
    if t.Some? then
      p.(recs := p.recs[t.value := p.recs[t.value].(isNew := false, modified := false)])
    else
      p.(recs := p.recs[newId := NewRec(now, maxAge)])
  }

  function PoolSet(p: Pool, id: Id, key: string, value: Value): Pool
    requires id in p.recs
  {
    p.(recs := p.recs[id := p.recs[id].(values := p.recs[id].values[key := value], modified := true)])
  }

  function PoolUnset(p: Pool, id: Id, key: string): Pool
    requires id in p.recs
  {
    p.(recs := p.recs[id := p.recs[id].(values := p.recs[id].values - {key}, modified := true)])
  }

  function PoolSave(p: Pool, id: Id): Pool {
    p.(stored := p.stored + {id})
  }

  function PoolDestroy(p: Pool, cookie: Option<Id>): Pool {
    if cookie.Some? && cookie.value != "" then p.(stored := p.stored - {cookie.value}) else p
  }

  /** What the middleware does once the handler has returned. */
  function PoolFinish(p: Pool, id: Id): Pool
    requires id in p.recs
  {
    if p.recs[id].modified || p.recs[id].isNew then PoolSave(p, id) else p
  }

  function PoolCleanup(p: Pool, now: int): Pool {
    p.(stored := set id | id in p.stored && !(id in p.recs && p.recs[id].expiresAt < now))
  }

  // ---- interleaved requests ----

  /** A request being served: the cookie it came with and the session it loaded. */
  datatype Flight = Flight(cookie: Option<Id>, id: Id)

  datatype Machine = Machine(now: int, maxAge: int, pool: Pool, flights: map<nat, Flight>)

  datatype Step =
    | Load(r: nat, cookie: Option<Id>, newId: Id)
    | SetValue(r: nat, key: string, value: Value)
    | DeleteValue(r: nat, key: string)
    | Save(r: nat)      // the handler saves explicitly
    | Destroy(r: nat)   // the handler destroys the session named by the request's cookie
    | Finish(r: nat)    // the middleware's conditional save, and the request is over
    | End(r: nat)       // the request is over without the middleware (a skipped path)
    | Tick(dt: nat)
    | Cleanup

  ghost predicate Valid(m: Machine) {
    && PoolValid(m.pool, m.maxAge)
    && (forall id <- m.pool.recs :: m.pool.recs[id].createdAt <= m.now)
    && forall r <- m.flights :: m.flights[r].id in m.pool.recs
  }

  /** Random ids are non-empty and never repeat. */
  predicate Fresh(p: Pool, id: Id) {
    id != "" && id !in p.recs && id !in p.stored
  }

  predicate Enabled(m: Machine, st: Step) {
    match st
    case Load(r, _, newId) => r !in m.flights && Fresh(m.pool, newId)
    case Tick(_) => true
    case Cleanup => true
    case _ => st.r in m.flights && m.flights[st.r].id in m.pool.recs
  }

  function Next(m: Machine, st: Step): (m': Machine)
    requires Enabled(m, st)
  {
    match st
    case Load(r, cookie, newId) =>
      m.(pool := PoolLoad(m.pool, m.now, m.maxAge, cookie, newId),
         flights := m.flights[r := Flight(cookie, LoadedId(m.pool, m.now, cookie, newId))])
    case SetValue(r, key, value) => m.(pool := PoolSet(m.pool, m.flights[r].id, key, value))
    case DeleteValue(r, key) => m.(pool := PoolUnset(m.pool, m.flights[r].id, key))
    case Save(r) => m.(pool := PoolSave(m.pool, m.flights[r].id))
    case Destroy(r) => m.(pool := PoolDestroy(m.pool, m.flights[r].cookie))
    case Finish(r) => m.(pool := PoolFinish(m.pool, m.flights[r].id), flights := m.flights - {r})
    case End(r) => m.(flights := m.flights - {r})
    case Tick(dt) => m.(now := m.now + dt)
    case Cleanup => m.(pool := PoolCleanup(m.pool, m.now))
  }

  /** A schedule that can be executed from m, step by step. */
  predicate Runs(m: Machine, sched: seq<Step>)
    decreases |sched|
  {
    sched == [] || (Enabled(m, sched[0]) && Runs(Next(m, sched[0]), sched[1..]))
  }

  function Run(m: Machine, sched: seq<Step>): Machine
    requires Runs(m, sched)
    decreases |sched|
  {
    if sched == [] then m else Run(Next(m, sched[0]), sched[1..])
  }

  lemma RunCons(m: Machine, st: Step, rest: seq<Step>)
    requires Enabled(m, st) && Runs(Next(m, st), rest)
    ensures Runs(m, [st] + rest) && Run(m, [st] + rest) == Run(Next(m, st), rest)
  {
    assert ([st] + rest)[1..] == rest;
  }

  function Init(now: int, maxAge: int): Machine {
    Machine(now, maxAge, Pool(map[], {}), map[])
  }

  // ---- what the steps do, in terms of records and store alone ----

  /** A load hands out the stored session that its cookie names, until and including the instant of
      its expiry, with its values and without its flags; otherwise a new one, empty, that lives for
      maxAge from now.  Nothing else changes, and the store does not. */
  lemma LoadMeans(m: Machine, r: nat, cookie: Option<Id>, newId: Id)
    requires Valid(m) && Enabled(m, Load(r, cookie, newId))
    ensures var m' := Next(m, Load(r, cookie, newId));
            var id := m'.flights[r].id;
            && m'.pool.stored == m.pool.stored && m'.flights == m.flights[r := Flight(cookie, id)]
            && (if cookie.Some? && cookie.value != "" && cookie.value in m.pool.stored
                   && m.now <= m.pool.recs[cookie.value].expiresAt
                then id == cookie.value && m'.pool.recs[id] == m.pool.recs[id].(isNew := false, modified := false)
                else id == newId && m'.pool.recs[id] == Rec(map[], m.now, m.now + m.maxAge, true, true))
            && m'.pool.recs.Keys == m.pool.recs.Keys + {id}
            && forall x <- m.pool.recs :: x != id ==> m'.pool.recs[x] == m.pool.recs[x]
  {
  }

  /** A write touches one key of the session held and marks it modified. */
  lemma WriteMeans(m: Machine, st: Step)
    requires Valid(m) && Enabled(m, st) && (st.SetValue? || st.DeleteValue?)
    ensures var id, m' := m.flights[st.r].id, Next(m, st);
            && m'.pool.stored == m.pool.stored && m'.flights == m.flights && m'.pool.recs.Keys == m.pool.recs.Keys
            && m'.pool.recs[id].modified && m'.pool.recs[id].isNew == m.pool.recs[id].isNew
            && m'.pool.recs[id].values == (if st.SetValue? then m.pool.recs[id].values[st.key := st.value]
                                           else m.pool.recs[id].values - {st.key})
            && forall x <- m.pool.recs :: x != id ==> m'.pool.recs[x] == m.pool.recs[x]
  {
  }

  /** What is in the store after each step, and that no record changes with it. */
  lemma StoreMeans(m: Machine, st: Step, id: Id)
    requires Valid(m) && Enabled(m, st) && (st.Save? || st.Destroy? || st.Finish? || st.End? || st.Cleanup?)
    ensures var m' := Next(m, st);
            && m'.pool.recs == m.pool.recs
            && (id in m'.pool.stored <==>
                  match st
                  case Save(r) => id in m.pool.stored || id == m.flights[r].id
                  case Destroy(r) => id in m.pool.stored && !(m.flights[r].cookie == Some(id) && id != "")
                  case Finish(r) =>
                    id in m.pool.stored
                    || (id == m.flights[r].id && (m.pool.recs[id].modified || m.pool.recs[id].isNew))
                  case Cleanup => id in m.pool.stored && m.now <= m.pool.recs[id].expiresAt
                  case _ => id in m.pool.stored)
            && m'.flights == if st.Finish? || st.End? then m.flights - {st.r} else m.flights
  {
  }

  // ---- what every step and every run keeps ----

  lemma NextValid(m: Machine, st: Step)
    requires Valid(m) && Enabled(m, st)
    ensures Valid(Next(m, st))
  {
  }

  /** In every reachable state each stored id was minted and has the expiry fixed when it
      was created, whatever cookies the clients send and however requests interleave. */
  lemma {:induction false} RunValid(m: Machine, sched: seq<Step>)
    requires Valid(m) && Runs(m, sched)
    ensures Valid(Run(m, sched))
    decreases |sched|
  {
    if sched != [] {
      NextValid(m, sched[0]);
      RunValid(Next(m, sched[0]), sched[1..]);
    }
  }

  /** A minted record is never forgotten and no save, load or write moves its life span;
      the clock never goes back. */
  lemma {:induction false} LifeSpanIsFixed(m: Machine, sched: seq<Step>, id: Id)
    requires Runs(m, sched) && id in m.pool.recs
    ensures var m' := Run(m, sched);
            && m.now <= m'.now
            && id in m'.pool.recs
            && m'.pool.recs[id].createdAt == m.pool.recs[id].createdAt
            && m'.pool.recs[id].expiresAt == m.pool.recs[id].expiresAt
    decreases |sched|
  {
    if sched != [] {
      LifeSpanIsFixed(Next(m, sched[0]), sched[1..], id);
    }
  }

  /** The ids a schedule draws from the generator. */
  function Drawn(sched: seq<Step>): set<Id> {
    set st | st in sched && st.Load? :: st.newId
  }

  /** An id in the store at the end was there at the start, belongs to a session minted
      earlier, or was drawn from the generator: a cookie value made up by a client never
      becomes a stored id. */
  lemma {:induction false} StoredIdsWereMinted(m: Machine, sched: seq<Step>, id: Id)
    requires Valid(m) && Runs(m, sched) && id in Run(m, sched).pool.stored
    ensures id in m.pool.recs || id in Drawn(sched)
    decreases |sched|
  {
    if sched != [] {
      NextValid(m, sched[0]);
      assert sched == [sched[0]] + sched[1..];
      StoredIdsWereMinted(Next(m, sched[0]), sched[1..], id);
    }
  }

  /** Reachable states, under any interleaving and any cookies: every stored id was drawn from
      the generator, and its session's expiry is its creation plus maxAge, in the past or not. */
  lemma ReachableStates(now: int, maxAge: int, sched: seq<Step>, id: Id)
    requires Runs(Init(now, maxAge), sched) && id in Run(Init(now, maxAge), sched).pool.stored
    ensures var m := Run(Init(now, maxAge), sched);
            && id in Drawn(sched)
            && id in m.pool.recs
            && now <= m.pool.recs[id].createdAt <= m.now
            && m.pool.recs[id].expiresAt == m.pool.recs[id].createdAt + maxAge
  {
    RunValid(Init(now, maxAge), sched);
    StoredIdsWereMinted(Init(now, maxAge), sched, id);
    NotOlderThanStart(Init(now, maxAge), sched, now);
  }

  lemma {:induction false} NotOlderThanStart(m: Machine, sched: seq<Step>, start: int)
    requires Runs(m, sched) && start <= m.now && forall id <- m.pool.recs :: start <= m.pool.recs[id].createdAt
    ensures Run(m, sched).maxAge == m.maxAge
    ensures forall id <- Run(m, sched).pool.recs :: start <= Run(m, sched).pool.recs[id].createdAt
    decreases |sched|
  {
    if sched != [] {
      NotOlderThanStart(Next(m, sched[0]), sched[1..], start);
    }
  }

  // ---- a write is seen by every later load ----

  /** The step writes `key` of session `id`, or removes `id` from the store on request. */
  predicate Disturbs(m: Machine, st: Step, id: Id, key: string)
    requires Enabled(m, st)
  {
    match st
    case SetValue(r, k, _) => m.flights[r].id == id && k == key
    case DeleteValue(r, k) => m.flights[r].id == id && k == key
    case Destroy(r) => m.flights[r].cookie == Some(id)
    case _ => false
  }

  predicate Undisturbed(m: Machine, sched: seq<Step>, id: Id, key: string)
    requires Runs(m, sched)
    decreases |sched|
  {
    sched == [] ||
    (!Disturbs(m, sched[0], id, key) && Undisturbed(Next(m, sched[0]), sched[1..], id, key))
  }

  lemma {:induction false} StoredEntryPersists(m: Machine, sched: seq<Step>, id: Id, key: string)
    requires Valid(m) && Runs(m, sched) && Undisturbed(m, sched, id, key)
    requires id in m.pool.stored
    requires Run(m, sched).now <= m.pool.recs[id].expiresAt
    ensures var p := Run(m, sched).pool;
            && id in p.stored && id in p.recs
            && (key in p.recs[id].values <==> key in m.pool.recs[id].values)
            && (key in p.recs[id].values ==> p.recs[id].values[key] == m.pool.recs[id].values[key])
            && p.recs[id].expiresAt == m.pool.recs[id].expiresAt
    decreases |sched|
  {
    if sched != [] {
      var m1 := Next(m, sched[0]);
      NextValid(m, sched[0]);
      LifeSpanIsFixed(m1, sched[1..], id);
      StoredEntryPersists(m1, sched[1..], id, key);
    }
  }

  function Lookup(rec: Rec, key: string): Option<Value> {
    if key in rec.values then Some(rec.values[key]) else None
  }

  /** Whatever other requests do in between (loads that reset Modified, skipped saves, saves,
      cleanups, writes to other keys), what a request wrote to a stored session, a value or a
      deletion, is what every later load of that id sees, until the key is written again, the
      session destroyed or its expiry passed. */
  lemma WriteIsSeen(m: Machine, write: Step, key: string, sched: seq<Step>, load: Step)
    requires Valid(m) && Enabled(m, write)
    requires (write.SetValue? || write.DeleteValue?) && write.key == key
    requires m.flights[write.r].id in m.pool.stored
    requires Runs(Next(m, write), sched)
    requires Undisturbed(Next(m, write), sched, m.flights[write.r].id, key)
    requires var m2 := Run(Next(m, write), sched);
             && load.Load? && load.cookie == Some(m.flights[write.r].id) && load.cookie != Some("")
             && Enabled(m2, load)
             && m2.now <= m.pool.recs[m.flights[write.r].id].expiresAt
    ensures var id := m.flights[write.r].id;
            var m3 := Next(Run(Next(m, write), sched), load);
            && m3.flights[load.r].id == id
            && Lookup(m3.pool.recs[id], key) == if write.SetValue? then Some(write.value) else None
  {
    NextValid(m, write);
    StoredEntryPersists(Next(m, write), sched, m.flights[write.r].id, key);
  }

  // ---- a destroyed session stays dead ----

  /** No request in flight holds the id, and it is not in the store. */
  predicate Dead(m: Machine, id: Id) {
    && id in m.pool.recs
    && id !in m.pool.stored
    && forall r <- m.flights :: m.flights[r].id != id
  }

  /** Once dead, an id is never stored and never loaded again, under any interleaving. */
  lemma {:induction false} DeadStaysDead(m: Machine, sched: seq<Step>, id: Id)
    requires Runs(m, sched) && Dead(m, id)
    ensures Dead(Run(m, sched), id)
    decreases |sched|
  {
    if sched != [] {
      DeadStaysDead(Next(m, sched[0]), sched[1..], id);
    }
  }

  /** Executing st in m puts the session `id` into the store. */
  predicate Stores(m: Machine, st: Step, id: Id)
    requires Enabled(m, st)
  {
    match st
    case Save(r) => m.flights[r].id == id
    case Finish(r) => m.flights[r].id == id && (m.pool.recs[id].modified || m.pool.recs[id].isNew)
    case _ => false
  }

  predicate SomeStepStores(m: Machine, sched: seq<Step>, id: Id)
    requires Runs(m, sched)
    decreases |sched|
  {
    sched != [] && (Stores(m, sched[0], id) || SomeStepStores(Next(m, sched[0]), sched[1..], id))
  }

  /** A session out of the store comes back only through a save by a request holding it. */
  lemma {:induction false} OnlySavesStore(m: Machine, sched: seq<Step>, id: Id)
    requires Runs(m, sched) && id !in m.pool.stored && !SomeStepStores(m, sched, id)
    ensures id !in Run(m, sched).pool.stored
    decreases |sched|
  {
    if sched != [] {
      OnlySavesStore(Next(m, sched[0]), sched[1..], id);
    }
  }

  /** At the end of a request, a session that its handler destroyed and that no other request
      holds is gone for good exactly when the handler left it unmodified; a modified one is
      saved again.  Requests that hold other sessions may overlap. */
  lemma DestroyIsFinalIffUnmodified(m: Machine, r: nat, sched: seq<Step>)
    requires Enabled(m, Finish(r))
    requires forall o <- m.flights :: o != r ==> m.flights[o].id != m.flights[r].id
    requires m.flights[r].id !in m.pool.stored
    requires Runs(Next(m, Finish(r)), sched)
    ensures var id := m.flights[r].id;
            if m.pool.recs[id].modified || m.pool.recs[id].isNew
            then id in Next(m, Finish(r)).pool.stored
            else Dead(Run(Next(m, Finish(r)), sched), id)
  {
    var m1 := Next(m, Finish(r));
    if !(m.pool.recs[m.flights[r].id].modified || m.pool.recs[m.flights[r].id].isNew) {
      DeadStaysDead(m1, sched, m.flights[r].id);
    }
  }

  /** A minted session out of the store, destroyed or never saved, stays out in every
      continuation exactly when no request in flight holds it. */
  lemma GoneForGoodIff(m: Machine, id: Id)
    requires Valid(m) && id in m.pool.recs && id !in m.pool.stored
    ensures (forall sched | Runs(m, sched) :: id !in Run(m, sched).pool.stored)
       <==> (forall r <- m.flights :: m.flights[r].id != id)
  {
    if forall r <- m.flights :: m.flights[r].id != id {
      forall sched | Runs(m, sched)
        ensures id !in Run(m, sched).pool.stored
      {
        DeadStaysDead(m, sched, id);
      }
    } else {
      var r :| r in m.flights && m.flights[r].id == id;
      RunCons(m, Save(r), []);
      assert id in Run(m, [Save(r)] + []).pool.stored;
    }
  }

  /** It can be loaded again, by some continuation, exactly when a request in flight holds it
      and its expiry has not passed. */
  lemma LoadableAgainIff(m: Machine, id: Id)
    requires Valid(m) && id in m.pool.recs && id !in m.pool.stored
    ensures (exists sched | Runs(m, sched) :: Hits(Run(m, sched).pool, Run(m, sched).now, id))
       <==> (exists r <- m.flights :: m.flights[r].id == id) && m.now <= m.pool.recs[id].expiresAt
  {
    if sched :| Runs(m, sched) && Hits(Run(m, sched).pool, Run(m, sched).now, id) {
      LifeSpanIsFixed(m, sched, id);
      GoneForGoodIff(m, id);
    }
    if r :| r in m.flights && m.flights[r].id == id && m.now <= m.pool.recs[id].expiresAt {
      RunCons(m, Save(r), []);
      assert Hits(Run(m, [Save(r)] + []).pool, m.now, id);
    }
  }

  /** Such a state is reached from every one with a live session: a request that had loaded it
      before another destroyed it, and modifies it, brings it back through the middleware. */
  lemma OverlapResurrects(m: Machine, r: nat, other: nat, id: Id, newId: Id, key: string, value: Value)
    requires Valid(m) && m.flights == map[] && r != other
    requires id != "" && Hits(m.pool, m.now, id) && Fresh(m.pool, newId)
    ensures var sched := [Load(r, Some(id), newId), Load(other, Some(id), newId), Destroy(other),
                          Finish(other), SetValue(r, key, value), Finish(r)];
            Runs(m, sched) && Run(m, sched).flights == map[] && Hits(Run(m, sched).pool, m.now, id)
  {
    var m1 := Next(m, Load(r, Some(id), newId));
    var m2 := Next(m1, Load(other, Some(id), newId));
    var m3 := Next(m2, Destroy(other));
    var m4 := Next(m3, Finish(other));
    var m5 := Next(m4, SetValue(r, key, value));
    RunCons(m5, Finish(r), []);
    RunCons(m4, SetValue(r, key, value), [Finish(r)]);
    RunCons(m3, Finish(other), [SetValue(r, key, value), Finish(r)]);
    RunCons(m2, Destroy(other), [Finish(other), SetValue(r, key, value), Finish(r)]);
    RunCons(m1, Load(other, Some(id), newId), [Destroy(other), Finish(other), SetValue(r, key, value), Finish(r)]);
    RunCons(m, Load(r, Some(id), newId),
            [Load(other, Some(id), newId), Destroy(other), Finish(other), SetValue(r, key, value), Finish(r)]);
  }

  // ---- cleanup is invisible ----

  /** The two machines differ at most in which expired ids their stores still hold. */
  ghost predicate SameButExpired(m: Machine, n: Machine) {
    && m.now == n.now && m.maxAge == n.maxAge
    && m.pool.recs == n.pool.recs && m.flights == n.flights
    && forall id <- m.pool.recs :: m.now <= m.pool.recs[id].expiresAt ==>
         (id in m.pool.stored <==> id in n.pool.stored)
  }

  function WithoutCleanup(sched: seq<Step>): seq<Step> {
    if sched == [] then []
    else if sched[0].Cleanup? then WithoutCleanup(sched[1..])
    else [sched[0]] + WithoutCleanup(sched[1..])
  }

  lemma SameAfterCleanup(m: Machine, n: Machine)
    requires Valid(m) && SameButExpired(m, n)
    ensures SameButExpired(Next(m, Cleanup), n)
  {
  }

  lemma SameAfterStep(m: Machine, n: Machine, st: Step)
    requires Valid(m) && Valid(n) && SameButExpired(m, n) && Enabled(m, st) && !st.Cleanup?
    ensures Enabled(n, st) && SameButExpired(Next(m, st), Next(n, st))
  {
  }

  /** Removing every firing of the cleanup loop from a schedule leaves it executable and
      changes nothing but expired entries: every request loads the same session with the
      same values and flags. */
  lemma {:induction false} CleanupIsInvisible(m: Machine, n: Machine, sched: seq<Step>)
    requires Valid(m) && Valid(n) && SameButExpired(m, n) && Runs(m, sched)
    ensures Runs(n, WithoutCleanup(sched))
    ensures SameButExpired(Run(m, sched), Run(n, WithoutCleanup(sched)))
    decreases |sched|
  {
    if sched != [] {
      var st := sched[0];
      NextValid(m, st);
      if st.Cleanup? {
        SameAfterCleanup(m, n);
        CleanupIsInvisible(Next(m, st), n, sched[1..]);
      } else {
        SameAfterStep(m, n, st);
        NextValid(n, st);
        CleanupIsInvisible(Next(m, st), Next(n, st), sched[1..]);
        RunCons(n, st, WithoutCleanup(sched[1..]));
      }
    }
  }
}
