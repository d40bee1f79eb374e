/** The Redis session store, which hands out copies, and the same request machine over it.

    When it is indistinguishable from the in-memory store, whose cleanup may fire at any moment,
    is stated exactly, and so is which writes survive overlapping requests.  The Redis server is
    an abstract map whose entries are gone once their time to live is over. */
module RedisSessions {
  import opened Basics
  import opened SessionSpec
  import opened Sessions

  /** The JSON form of a session: IsNew and Modified are not encoded. */
  datatype Saved = Saved(id: Id, values: map<string, Value>, createdAt: int, expiresAt: int)

  datatype Entry = Entry(data: Saved, deadline: int)

  function Encode(id: Id, rec: Rec): Saved {
    Saved(id, rec.values, rec.createdAt, rec.expiresAt)
  }

  function Decode(data: Saved): Rec {
    Rec(data.values, data.createdAt, data.expiresAt, false, false)
  }

  function Key(prefix: string, id: Id): string {
    prefix + id
  }

  lemma KeyInjective(prefix: string, a: Id, b: Id)
    requires Key(prefix, a) == Key(prefix, b)
    ensures a == b
  {
    assert a == Key(prefix, a)[|prefix|..];
    assert b == Key(prefix, b)[|prefix|..];
  }

  type Entries = map<string, Entry>

  predicate Live(entries: Entries, now: int, key: string) {
    key in entries && now < entries[key].deadline
  }

  // ---- the store's operations on the server's entries ----

  function Find(entries: Entries, prefix: string, now: int, id: Id): Option<Saved> {
    var key := Key(prefix, id);
    if Live(entries, now, key) && now <= entries[key].data.expiresAt then Some(entries[key].data) else None
  }

  function AfterFind(entries: Entries, prefix: string, now: int, id: Id): Entries {
    var key := Key(prefix, id);
    if Live(entries, now, key) && entries[key].data.expiresAt < now then entries - {key} else entries
  }

  function AfterSave(entries: Entries, prefix: string, now: int, id: Id, rec: Rec): Entries {
    var ttl := rec.expiresAt - now;
    if ttl <= 0 then entries - {Key(prefix, id)}
    else entries[Key(prefix, id) := Entry(Encode(id, rec), now + ttl)]
  }

  class RedisClient {
    var entries: Entries

    method Get(now: int, key: string) returns (data: Option<Saved>)
      ensures data == if Live(entries, now, key) then Some(entries[key].data) else None
    {
      data := if key in entries && now < entries[key].deadline then Some(entries[key].data) else None;
    }

    method Set(now: int, key: string, data: Saved, ttl: int)
      modifies this
      ensures entries == old(entries)[key := Entry(data, now + ttl)]
    {
      entries := entries[key := Entry(data, now + ttl)];
    }

    method Del(key: string)
      modifies this
      ensures entries == old(entries) - {key}
    {
      entries := entries - {key};
    }
  }

  class SessionStore {
    const client: RedisClient
    const keyPrefix: string

    constructor (client: RedisClient, keyPrefix: string)
      ensures this.client == client && this.keyPrefix == keyPrefix
    {
      this.client := client;
      this.keyPrefix := keyPrefix;
    }

    /** The result is a new object: no two loads share one. */
    method Get(now: int, id: string) returns (s: Session?)
      modifies client
      ensures s == null <==> old(Find(client.entries, keyPrefix, now, id)) == None
      ensures s != null ==>
                && fresh(s)
                && s.ID == old(Find(client.entries, keyPrefix, now, id)).value.id
                && s.ToRec() == Decode(old(Find(client.entries, keyPrefix, now, id)).value)
      ensures client.entries == AfterFind(old(client.entries), keyPrefix, now, id)
      ensures var q, key := old(client.entries), keyPrefix + id;
              && (s != null <==> key in q && now < q[key].deadline && now <= q[key].data.expiresAt)
              && (s != null ==>
                    s.ToRec() == Rec(q[key].data.values, q[key].data.createdAt, q[key].data.expiresAt, false, false))
              && client.entries == if key in q && now < q[key].deadline && q[key].data.expiresAt < now
                                   then q - {key} else q
    {
      var data := client.Get(now, keyPrefix + id);
      if data == None {
        return null;
      }
      var sess := new Session.Decoded(data.value.id, data.value.values, data.value.createdAt, data.value.expiresAt);
      if sess.ExpiresAt < now {
        Delete(id);
        return null;
      }
      return sess;
    }

    method Save(now: int, s: Session)
      modifies client
      ensures client.entries == AfterSave(old(client.entries), keyPrefix, now, s.ID, s.ToRec())
      ensures client.entries == if s.ExpiresAt <= now then old(client.entries) - {keyPrefix + s.ID}
                                else old(client.entries)[keyPrefix + s.ID :=
                                       Entry(Saved(s.ID, s.Values, s.CreatedAt, s.ExpiresAt), s.ExpiresAt)]
    {
      var data := Encode(s.ID, s.ToRec());
      var ttl := s.ExpiresAt - now;
      if ttl <= 0 {
        Delete(s.ID);
      } else {
        client.Set(now, keyPrefix + s.ID, data, ttl);
      }
    }

    method Delete(id: string)
      modifies client
      ensures client.entries == old(client.entries) - {Key(keyPrefix, id)}
      ensures client.entries == old(client.entries) - {keyPrefix + id}
    {
      client.Del(keyPrefix + id);
    }
  }

  // ---- the request machine over the copying store ----

  /** A request with its private copy. */
  datatype CopyFlight = CopyFlight(cookie: Option<Id>, id: Id, rec: Rec)

  datatype CopyMachine = CopyMachine(
    now: int,
    maxAge: int,
    prefix: string,
    entries: Entries,
    minted: set<Id>,
    flights: map<nat, CopyFlight>)

  predicate CopyEnabled(q: CopyMachine, st: Step) {
    match st
    case Load(r, _, newId) => r !in q.flights && newId != "" && newId !in q.minted
    case Tick(_) => true
    case Cleanup => true
    case _ => st.r in q.flights
  }

  /** The lookup for a request's cookie, and the entries it leaves. */
  function FindFor(entries: Entries, prefix: string, now: int, cookie: Option<Id>): Option<Saved> {
    if cookie.Some? && cookie.value != "" then Find(entries, prefix, now, cookie.value) else None
  }

  function AfterFindFor(entries: Entries, prefix: string, now: int, cookie: Option<Id>): Entries {
    if cookie.Some? && cookie.value != "" then AfterFind(entries, prefix, now, cookie.value) else entries
  }

  /** The session a lookup leads to: the decoded one, or a new one. */
  function CopyFor(found: Option<Saved>, now: int, maxAge: int, cookie: Option<Id>, newId: Id): CopyFlight {
    match found
    case Some(data) => CopyFlight(cookie, data.id, Decode(data))
    case None => CopyFlight(cookie, newId, NewRec(now, maxAge))
  }

  function CopyLoad(q: CopyMachine, r: nat, cookie: Option<Id>, newId: Id): CopyMachine {
    var found := FindFor(q.entries, q.prefix, q.now, cookie);
    q.(entries := AfterFindFor(q.entries, q.prefix, q.now, cookie),
       minted := if found.Some? then q.minted else q.minted + {newId},
       flights := q.flights[r := CopyFor(found, q.now, q.maxAge, cookie, newId)])
  }

  function CopyWrite(q: CopyMachine, r: nat, values: map<string, Value>): CopyMachine
    requires r in q.flights
  {
    var f := q.flights[r];
    q.(flights := q.flights[r := f.(rec := f.rec.(values := values, modified := true))])
  }

  function CopySave(q: CopyMachine, r: nat): CopyMachine
    requires r in q.flights
  {
    var f := q.flights[r];
    q.(entries := AfterSave(q.entries, q.prefix, q.now, f.id, f.rec))
  }

  function CopyNext(q: CopyMachine, st: Step): CopyMachine
    requires CopyEnabled(q, st)
  {
    match st
    case Load(r, cookie, newId) => CopyLoad(q, r, cookie, newId)
    case SetValue(r, key, value) => CopyWrite(q, r, q.flights[r].rec.values[key := value])
    case DeleteValue(r, key) => CopyWrite(q, r, q.flights[r].rec.values - {key})
    case Save(r) => CopySave(q, r)
    case Destroy(r) =>
      var c := q.flights[r].cookie;
      if c.Some? && c.value != "" then q.(entries := q.entries - {Key(q.prefix, c.value)}) else q
    case Finish(r) =>
      var q1 := if q.flights[r].rec.modified || q.flights[r].rec.isNew then CopySave(q, r) else q;
      q1.(flights := q1.flights - {r})
    case End(r) => q.(flights := q.flights - {r})
    case Tick(dt) => q.(now := q.now + dt)
    case Cleanup => q
  }

  function CopyInit(now: int, maxAge: int, prefix: string, entries: Entries): CopyMachine {
    CopyMachine(now, maxAge, prefix, entries, {}, map[])
  }

  predicate CopyRuns(q: CopyMachine, sched: seq<Step>)
    decreases |sched|
  {
    sched == [] || (CopyEnabled(q, sched[0]) && CopyRuns(CopyNext(q, sched[0]), sched[1..]))
  }

  function CopyRun(q: CopyMachine, sched: seq<Step>): CopyMachine
    requires CopyRuns(q, sched)
    decreases |sched|
  {
    if sched == [] then q else CopyRun(CopyNext(q, sched[0]), sched[1..])
  }

  // ---- the machine, on objects ----

  /** The manager and the middleware's tail over a Redis store. */
  class RedisManager {
    const store: SessionStore
    const maxAge: int

    constructor (store: SessionStore, maxAge: int)
      ensures this.store == store && this.maxAge == if maxAge == 0 then 24 * 3600 * SECOND else maxAge
    {
      this.store := store;
      this.maxAge := if maxAge == 0 then 24 * 3600 * SECOND else maxAge;
    }

    method GetSession(now: int, cookie: Option<string>, newId: string) returns (s: Session)
      modifies store.client
      ensures fresh(s)
      ensures store.client.entries == old(AfterFindFor(store.client.entries, store.keyPrefix, now, cookie))
      ensures CopyFlight(cookie, s.ID, s.ToRec())
           == CopyFor(old(FindFor(store.client.entries, store.keyPrefix, now, cookie)), now, maxAge, cookie, newId)
    {
      if cookie.Some? && cookie.value != "" {
        var found := store.Get(now, cookie.value);
        if found != null {
          found.IsNew := false;
          found.Modified := false;
          return found;
        }
      }
      s := new Session(newId, now, maxAge);
    }

    method SaveSession(now: int, s: Session) returns (c: SetCookie)
      modifies store.client
      ensures store.client.entries == AfterSave(old(store.client.entries), store.keyPrefix, now, s.ID, s.ToRec())
      ensures c == SetCookie(s.ID, WholeSeconds(maxAge))
    {
      store.Save(now, s);
      c := SetCookie(s.ID, WholeSeconds(maxAge));
    }

    method DestroySession(cookie: Option<string>) returns (c: SetCookie)
      modifies store.client
      ensures store.client.entries == if cookie.Some? && cookie.value != ""
                                      then old(store.client.entries) - {Key(store.keyPrefix, cookie.value)}
                                      else old(store.client.entries)
      ensures c == SetCookie("", -1)
    {
      if cookie.Some? && cookie.value != "" {
        store.Delete(cookie.value);
      }
      c := SetCookie("", -1);
    }

    method SaveIfTouched(now: int, s: Session) returns (c: Option<SetCookie>)
      modifies store.client
      ensures c == if s.Modified || s.IsNew then Some(SetCookie(s.ID, WholeSeconds(maxAge))) else None
      ensures store.client.entries == if c.Some?
                                      then AfterSave(old(store.client.entries), store.keyPrefix, now, s.ID, s.ToRec())
                                      else old(store.client.entries)
    {
      c := None;
      if s.Modified || s.IsNew {
        var cookie := SaveSession(now, s);
        c := Some(cookie);
      }
    }
  }

  ghost function Held(serving: map<nat, Serving>): set<Session> {
    set r | r in serving :: serving[r].session
  }

  ghost function Copies(serving: map<nat, Serving>): map<nat, CopyFlight>
    reads Held(serving)
  {
    map r | r in serving :: CopyOf(serving[r])
  }

  ghost function CopyOf(s: Serving): CopyFlight
    reads s.session
  {
    CopyFlight(s.cookie, s.session.ID, s.session.ToRec())
  }

  /** Attaching or rewriting one request's session changes that request's copy only. */
  lemma CopiesUpdated(serving: map<nat, Serving>, before: map<nat, CopyFlight>, r: nat)
    requires r in serving && serving.Keys == before.Keys + {r}
    requires forall o <- serving :: o != r ==> CopyOf(serving[o]) == before[o]
    ensures Copies(serving) == before[r := CopyOf(serving[r])]
  {
  }

  /** Requests in flight over a Redis store, each with a session object of its own. */
  class RedisServer {
    const manager: RedisManager
    var now: int
    var serving: map<nat, Serving>
    /** The ids drawn from the generator so far. */
    ghost var minted: set<Id>

    constructor (manager: RedisManager, now: int)
      ensures Valid() && this.manager == manager
      ensures ToMachine() == CopyInit(now, manager.maxAge, manager.store.keyPrefix, manager.store.client.entries)
    {
      this.manager := manager;
      this.now := now;
      serving := map[];
      minted := {};
    }

    /** No two requests share a session object. */
    ghost predicate Valid()
      reads this
    {
      forall r <- serving, o <- serving :: r != o ==> serving[r].session != serving[o].session
    }

    ghost function ToMachine(): CopyMachine
      reads this, manager.store.client, Held(serving)
    {
      CopyMachine(now, manager.maxAge, manager.store.keyPrefix, manager.store.client.entries, minted, Copies(serving))
    }

    method Attach(r: nat, cookie: Option<string>, s: Session)
      requires Valid() && s !in Held(serving)
      modifies `serving
      ensures Valid() && Held(serving) <= old(Held(serving)) + {s}
      ensures Copies(serving) == old(Copies(serving))[r := CopyFlight(cookie, s.ID, s.ToRec())]
    {
      ghost var before := Copies(serving);
      serving := serving[r := Serving(cookie, s)];
      CopiesUpdated(serving, before, r);
    }

    method DoLoad(r: nat, cookie: Option<string>, newId: string)
      requires Valid()
      modifies this, manager.store.client
      ensures Valid() && ToMachine() == CopyLoad(old(ToMachine()), r, cookie, newId)
      ensures fresh(Held(serving) - old(Held(serving)))
    {
      ghost var found := FindFor(manager.store.client.entries, manager.store.keyPrefix, now, cookie);
      minted := if found.Some? then minted else minted + {newId};
      var s := manager.GetSession(now, cookie, newId);
      ghost var created := {s};
      assert fresh(created);
      Attach(r, cookie, s);
      assert Held(serving) - old(Held(serving)) <= created;
    }

    method DoSet(r: nat, key: string, value: Value)
      requires Valid() && r in serving
      modifies serving[r].session
      ensures Valid() && ToMachine() == CopyNext(old(ToMachine()), SetValue(r, key, value))
    {
      ghost var before := ToMachine();
      serving[r].session.Set(key, value);
      CopiesUpdated(serving, before.flights, r);
    }

    method DoDelete(r: nat, key: string)
      requires Valid() && r in serving
      modifies serving[r].session
      ensures Valid() && ToMachine() == CopyNext(old(ToMachine()), DeleteValue(r, key))
    {
      ghost var before := ToMachine();
      serving[r].session.Delete(key);
      CopiesUpdated(serving, before.flights, r);
    }

    method DoFinish(r: nat)
      requires Valid() && r in serving
      modifies this, manager.store.client
      ensures Valid() && ToMachine() == CopyNext(old(ToMachine()), Finish(r))
      ensures Held(serving) <= old(Held(serving))
    {
      ghost var before := ToMachine();
      var _ := manager.SaveIfTouched(now, serving[r].session);
      serving := serving - {r};
      assert Copies(serving) == before.flights - {r};
    }

    method DoEnd(r: nat)
      requires Valid() && r in serving
      modifies `serving
      ensures Valid() && ToMachine() == CopyNext(old(ToMachine()), End(r))
      ensures Held(serving) <= old(Held(serving))
    {
      ghost var before := ToMachine();
      serving := serving - {r};
      assert Copies(serving) == before.flights - {r};
    }

    /** One atomic step on the objects is one step of the machine over copies. */
    method Do(st: Step)
      requires Valid() && CopyEnabled(ToMachine(), st)
      modifies this, manager.store.client, Held(serving)
      ensures Valid() && ToMachine() == CopyNext(old(ToMachine()), st)
      ensures fresh(Held(serving) - old(Held(serving)))
    {
      match st
      case Load(r, cookie, newId) => DoLoad(r, cookie, newId);
      case SetValue(r, key, value) => DoSet(r, key, value);
      case DeleteValue(r, key) => DoDelete(r, key);
      case Save(r) => var _ := manager.SaveSession(now, serving[r].session);
      case Destroy(r) => var _ := manager.DestroySession(serving[r].cookie);
      case Finish(r) => DoFinish(r);
      case End(r) => DoEnd(r);
      case Tick(dt) => now := now + dt;
      case Cleanup =>
    }

    /** Any schedule of any number of requests: the objects refine the machine over copies. */
    method Execute(sched: seq<Step>)
      requires Valid() && CopyRuns(ToMachine(), sched)
      modifies this, manager.store.client, Held(serving)
      ensures Valid() && ToMachine() == CopyRun(old(ToMachine()), sched)
    {
      var i := 0;
      while i < |sched|
        invariant 0 <= i <= |sched| && Valid()
        invariant CopyRuns(ToMachine(), sched[i..])
        invariant CopyRun(ToMachine(), sched[i..]) == CopyRun(old(ToMachine()), sched)
        invariant fresh(Held(serving) - old(Held(serving)))
      {
        assert sched[i..][0] == sched[i] && sched[i..][1..] == sched[i + 1..];
        Do(sched[i]);
        i := i + 1;
      }
    }
  }

  // ---- the two stores agree ----

  predicate Clean(rec: Rec) {
    !rec.isNew && !rec.modified
  }

  /** Ids agree on what is alive before its expiry, and every request in flight holds a copy that
      equals the shared record; only a request's own writes may be ahead of the copy store.  (A
      record that is new or modified then has one holder: a load by another would reset its flags
      in memory and leave the first one's copy as it is.) */
  ghost predicate Agree(m: Machine, q: CopyMachine) {
    AgreeFlights(m, q) && AgreeEntries(m, q)
  }

  ghost predicate AgreeFlights(m: Machine, q: CopyMachine) {
    && m.now == q.now && m.maxAge == q.maxAge && m.pool.recs.Keys == q.minted
    && m.flights.Keys == q.flights.Keys
    && (forall r <- q.flights, o <- q.flights ::
          r != o && q.flights[r].id == q.flights[o].id ==> Clean(q.flights[r].rec))
    && (forall r <- m.flights :: AgreeFlight(m, m.flights[r], q.flights[r]))
  }

  ghost predicate AgreeFlight(m: Machine, f: Flight, g: CopyFlight) {
    f.cookie == g.cookie && f.id == g.id && f.id in m.pool.recs && g.rec == m.pool.recs[f.id]
  }

  ghost predicate AgreeEntries(m: Machine, q: CopyMachine) {
    && (forall id: Id :: Live(q.entries, q.now, Key(q.prefix, id)) ==> AgreeLive(m, q, id))
    && (forall id: Id :: id in m.pool.stored && id in m.pool.recs && m.now < m.pool.recs[id].expiresAt ==>
                           Live(q.entries, q.now, Key(q.prefix, id)))
  }

  /** A request in flight may have unsaved writes to the session. */
  ghost predicate Unsaved(q: CopyMachine, id: Id) {
    exists r :: r in q.flights && q.flights[r].id == id && q.flights[r].rec.modified
  }

  /** What holds of an entry that Redis still has. */
  ghost predicate AgreeLive(m: Machine, q: CopyMachine, id: Id)
    requires Live(q.entries, q.now, Key(q.prefix, id))
  {
    var e := q.entries[Key(q.prefix, id)];
    && id in m.pool.recs && id in m.pool.stored
    && e.deadline == m.pool.recs[id].expiresAt
    && e.data.id == id
    && e.data.createdAt == m.pool.recs[id].createdAt
    && e.data.expiresAt == m.pool.recs[id].expiresAt
    && (e.data.values == m.pool.recs[id].values || Unsaved(q, id))
  }

  /** A request that leaves without the middleware's save leaves nothing unsaved behind: its
      session, if Redis has it, has the values the request last saw. */
  predicate NothingUnsaved(q: CopyMachine, r: nat)
    requires r in q.flights
  {
    var key := Key(q.prefix, q.flights[r].id);
    Live(q.entries, q.now, key) ==> q.entries[key].data.values == q.flights[r].rec.values
  }

  predicate SoleHolder(q: CopyMachine, r: nat)
    requires r in q.flights
  {
    forall o <- q.flights :: o != r ==> q.flights[o].id != q.flights[r].id
  }

  /** Requests may overlap, but none writes to a session that another holds, or loads one that
      another holds with something unsaved; none leaves with an unsaved write; and no session is
      loaded at the very instant of its expiry. */
  predicate Orderly(m: Machine, q: CopyMachine, st: Step) {
    match st
    case Load(_, cookie, _) =>
      var t := Target(m.pool, m.now, cookie);
      t.Some? ==>
        && m.now != m.pool.recs[t.value].expiresAt
        && forall o <- q.flights :: q.flights[o].id == t.value ==> Clean(q.flights[o].rec)
    case SetValue(r, _, _) => r in q.flights && SoleHolder(q, r)
    case DeleteValue(r, _) => r in q.flights && SoleHolder(q, r)
    case End(r) => r in q.flights && NothingUnsaved(q, r)
    case _ => true
  }

  /** An orderly load finds in Redis what the in-memory store finds. */
  lemma LoadsTheSame(m: Machine, q: CopyMachine, st: Step)
    requires Valid(m) && Agree(m, q) && st.Load? && Enabled(m, st) && Orderly(m, q, st)
    ensures var m', id := Next(m, st), LoadedId(m.pool, m.now, st.cookie, st.newId);
            CopyNext(q, st) == q.(minted := m'.pool.recs.Keys,
                                  flights := q.flights[st.r := CopyFlight(st.cookie, id, m'.pool.recs[id])])
  {
    if st.cookie.Some? {
      assert Live(q.entries, q.now, Key(q.prefix, st.cookie.value)) ==> AgreeLive(m, q, st.cookie.value);
    }
  }

  lemma AgreeLoad(m: Machine, q: CopyMachine, st: Step)
    requires Valid(m) && Agree(m, q) && st.Load? && Enabled(m, st) && Orderly(m, q, st)
    ensures Agree(Next(m, st), CopyNext(q, st))
  {
    AgreeLoadFlights(m, q, st);
    AgreeLoadEntries(m, q, st);
  }

  lemma AgreeLoadFlights(m: Machine, q: CopyMachine, st: Step)
    requires Valid(m) && Agree(m, q) && st.Load? && Enabled(m, st) && Orderly(m, q, st)
    ensures AgreeFlights(Next(m, st), CopyNext(q, st))
  {
    LoadsTheSame(m, q, st);
    var m', q' := Next(m, st), CopyNext(q, st);
    forall r | r in m'.flights
      ensures AgreeFlight(m', m'.flights[r], q'.flights[r])
    {
      if r != st.r {
        assert AgreeFlight(m, m.flights[r], q.flights[r]);
      }
    }
  }

  lemma AgreeLoadEntries(m: Machine, q: CopyMachine, st: Step)
    requires Valid(m) && Agree(m, q) && st.Load? && Enabled(m, st) && Orderly(m, q, st)
    ensures AgreeEntries(Next(m, st), CopyNext(q, st))
  {
    LoadsTheSame(m, q, st);
    var loaded, m', q' := LoadedId(m.pool, m.now, st.cookie, st.newId), Next(m, st), CopyNext(q, st);
    forall id: Id | Live(q'.entries, q'.now, Key(q'.prefix, id))
      ensures AgreeLive(m', q', id)
    {
      assert AgreeLive(m, q, id);
      if id != loaded && Unsaved(q, id) {
        UnsavedStays(q, q', id);
      }
    }
  }

  lemma UnsavedStays(q: CopyMachine, q': CopyMachine, id: Id)
    requires Unsaved(q, id)
    requires forall o <- q.flights :: q.flights[o].id == id ==> o in q'.flights && q'.flights[o] == q.flights[o]
    ensures Unsaved(q', id)
  {
    var o :| o in q.flights && q.flights[o].id == id && q.flights[o].rec.modified;
    assert q'.flights[o] == q.flights[o];
  }

  lemma AgreeLoadIff(m: Machine, q: CopyMachine, st: Step)
    requires Valid(m) && Agree(m, q) && st.Load? && Enabled(m, st)
    ensures CopyEnabled(q, st)
    ensures Agree(Next(m, st), CopyNext(q, st)) <==> Orderly(m, q, st)
  {
    var id, m', q' := LoadedId(m.pool, m.now, st.cookie, st.newId), Next(m, st), CopyNext(q, st);
    if Orderly(m, q, st) {
      AgreeLoad(m, q, st);
    } else if m.now == m.pool.recs[id].expiresAt {
      assert Live(q.entries, q.now, Key(q.prefix, id)) ==> AgreeLive(m, q, id);
      assert st.newId in q'.minted && st.newId !in m'.pool.recs;
    } else {
      var o :| o in q.flights && q.flights[o].id == id && !Clean(q.flights[o].rec);
      assert q'.flights[o].rec != m'.pool.recs[id];
    }
  }

  lemma AgreeWrite(m: Machine, q: CopyMachine, st: Step)
    requires Valid(m) && Agree(m, q) && (st.SetValue? || st.DeleteValue?) && Enabled(m, st) && SoleHolder(q, st.r)
    ensures Agree(Next(m, st), CopyNext(q, st))
  {
    AgreeWriteFlights(m, q, st);
    AgreeWriteEntries(m, q, st);
  }

  lemma AgreeWriteFlights(m: Machine, q: CopyMachine, st: Step)
    requires Valid(m) && Agree(m, q) && (st.SetValue? || st.DeleteValue?) && Enabled(m, st) && SoleHolder(q, st.r)
    ensures AgreeFlights(Next(m, st), CopyNext(q, st))
  {
    assert AgreeFlight(m, m.flights[st.r], q.flights[st.r]);
    var m', q' := Next(m, st), CopyNext(q, st);
    forall r | r in m'.flights
      ensures AgreeFlight(m', m'.flights[r], q'.flights[r])
    {
      assert AgreeFlight(m, m.flights[r], q.flights[r]);
    }
    forall r, o | r in q'.flights && o in q'.flights && r != o && q'.flights[r].id == q'.flights[o].id
      ensures Clean(q'.flights[r].rec)
    {
      assert q'.flights[r] == q.flights[r] && q'.flights[o] == q.flights[o];
    }
  }

  lemma AgreeWriteEntries(m: Machine, q: CopyMachine, st: Step)
    requires Valid(m) && Agree(m, q) && (st.SetValue? || st.DeleteValue?) && Enabled(m, st) && SoleHolder(q, st.r)
    ensures AgreeEntries(Next(m, st), CopyNext(q, st))
  {
    assert AgreeFlight(m, m.flights[st.r], q.flights[st.r]);
    var m', q', written := Next(m, st), CopyNext(q, st), q.flights[st.r].id;
    forall id: Id | Live(q'.entries, q'.now, Key(q'.prefix, id))
      ensures AgreeLive(m', q', id)
    {
      assert AgreeLive(m, q, id);
      if id == written {
        assert q'.flights[st.r].id == id && q'.flights[st.r].rec.modified;
      } else if Unsaved(q, id) {
        UnsavedStays(q, q', id);
      }
    }
  }

  lemma AgreeWriteIff(m: Machine, q: CopyMachine, st: Step)
    requires Valid(m) && Agree(m, q) && (st.SetValue? || st.DeleteValue?) && Enabled(m, st)
    ensures Agree(Next(m, st), CopyNext(q, st)) <==> SoleHolder(q, st.r)
  {
    if SoleHolder(q, st.r) {
      AgreeWrite(m, q, st);
    } else {
      var o :| o in q.flights && o != st.r && q.flights[o].id == q.flights[st.r].id;
      assert CopyNext(q, st).flights[o] == q.flights[o] && Clean(q.flights[o].rec);
    }
  }

  lemma AgreeSave(m: Machine, q: CopyMachine, r: nat)
    requires Valid(m) && Agree(m, q) && Enabled(m, Save(r))
    ensures Agree(Next(m, Save(r)), CopySave(q, r))
  {
    var m', q' := Next(m, Save(r)), CopySave(q, r);
    forall id: Id | Live(q'.entries, q'.now, Key(q'.prefix, id))
      ensures AgreeLive(m', q', id)
    {
      if m.flights[r].id != id {
        if Key(q.prefix, id) == Key(q.prefix, m.flights[r].id) {
          KeyInjective(q.prefix, id, m.flights[r].id);
        }
        assert Live(q.entries, q.now, Key(q.prefix, id));
      }
    }
    forall id: Id | id in m'.pool.stored && id in m'.pool.recs && m'.now < m'.pool.recs[id].expiresAt
      ensures Live(q'.entries, q'.now, Key(q'.prefix, id))
    {
      if m.flights[r].id != id && Key(q.prefix, id) == Key(q.prefix, m.flights[r].id) {
        KeyInjective(q.prefix, id, m.flights[r].id);
      }
    }
  }

  lemma AgreeDestroy(m: Machine, q: CopyMachine, r: nat)
    requires Valid(m) && Agree(m, q) && Enabled(m, Destroy(r))
    ensures Agree(Next(m, Destroy(r)), CopyNext(q, Destroy(r)))
  {
    assert AgreeFlight(m, m.flights[r], q.flights[r]);
    var c := m.flights[r].cookie;
    if c.Some? && c.value != "" {
      AgreeRemove(m, q, c.value);
    }
  }

  lemma AgreeRemove(m: Machine, q: CopyMachine, id: Id)
    requires Valid(m) && Agree(m, q)
    ensures Agree(m.(pool := m.pool.(stored := m.pool.stored - {id})), q.(entries := q.entries - {Key(q.prefix, id)}))
  {
    var m' := m.(pool := m.pool.(stored := m.pool.stored - {id}));
    var q' := q.(entries := q.entries - {Key(q.prefix, id)});
    forall x: Id | Live(q'.entries, q'.now, Key(q'.prefix, x))
      ensures AgreeLive(m', q', x)
    {
      assert Live(q.entries, q.now, Key(q.prefix, x)) && AgreeLive(m, q, x);
    }
    forall x: Id | x in m'.pool.stored && x in m'.pool.recs && m'.now < m'.pool.recs[x].expiresAt
      ensures Live(q'.entries, q'.now, Key(q'.prefix, x))
    {
      if Key(q.prefix, x) == Key(q.prefix, id) {
        KeyInjective(q.prefix, x, id);
      }
    }
    forall r | r in m'.flights
      ensures AgreeFlight(m', m'.flights[r], q'.flights[r])
    {
      assert AgreeFlight(m, m.flights[r], q.flights[r]);
    }
  }

  /** A request that leaves without the middleware's save, on a skipped path or unwound by a
      panic, leaves the stores in agreement exactly when it leaves nothing unsaved. */
  lemma AgreeLeaveIff(m: Machine, q: CopyMachine, r: nat)
    requires Valid(m) && Agree(m, q) && Enabled(m, End(r))
    ensures Agree(Next(m, End(r)), CopyNext(q, End(r))) <==> NothingUnsaved(q, r)
  {
    var m', q' := Next(m, End(r)), CopyNext(q, End(r));
    if !NothingUnsaved(q, r) {
      assert !AgreeLive(m', q', q.flights[r].id);
    } else {
      AgreeLeave(m, q, r);
    }
  }

  lemma AgreeLeave(m: Machine, q: CopyMachine, r: nat)
    requires Valid(m) && Agree(m, q) && Enabled(m, End(r)) && NothingUnsaved(q, r)
    ensures Agree(Next(m, End(r)), CopyNext(q, End(r)))
  {
    var m', q' := Next(m, End(r)), CopyNext(q, End(r));
    forall id: Id | Live(q'.entries, q'.now, Key(q'.prefix, id))
      ensures AgreeLive(m', q', id)
    {
      assert Live(q.entries, q.now, Key(q.prefix, id)) && AgreeLive(m, q, id);
      assert AgreeFlight(m, m.flights[r], q.flights[r]);
      if q.flights[r].id != id && Unsaved(q, id) {
        UnsavedStays(q, q', id);
      }
    }
  }

  lemma CleanIsSaved(m: Machine, q: CopyMachine, r: nat)
    requires Valid(m) && Agree(m, q) && Enabled(m, Finish(r)) && Clean(q.flights[r].rec)
    ensures NothingUnsaved(q, r)
  {
    assert AgreeFlight(m, m.flights[r], q.flights[r]);
    var id := q.flights[r].id;
    if Live(q.entries, q.now, Key(q.prefix, id)) {
      assert AgreeLive(m, q, id);
      assert forall o <- q.flights :: AgreeFlight(m, m.flights[o], q.flights[o]);
    }
  }

  lemma AgreeFinish(m: Machine, q: CopyMachine, r: nat)
    requires Valid(m) && Agree(m, q) && Enabled(m, Finish(r))
    ensures Agree(Next(m, Finish(r)), CopyNext(q, Finish(r)))
  {
    assert AgreeFlight(m, m.flights[r], q.flights[r]);
    if Clean(q.flights[r].rec) {
      CleanIsSaved(m, q, r);
      AgreeLeave(m, q, r);
    } else {
      AgreeSave(m, q, r);
      NextValid(m, Save(r));
      AgreeLeave(Next(m, Save(r)), CopySave(q, r), r);
    }
  }

  lemma AgreeTick(m: Machine, q: CopyMachine, dt: nat)
    requires Valid(m) && Agree(m, q)
    ensures Agree(Next(m, Tick(dt)), CopyNext(q, Tick(dt)))
  {
    forall id: Id | Live(q.entries, q.now + dt, Key(q.prefix, id))
      ensures AgreeLive(Next(m, Tick(dt)), CopyNext(q, Tick(dt)), id)
    {
      assert Live(q.entries, q.now, Key(q.prefix, id));
    }
  }

  /** From agreement, one step keeps it exactly when the step is orderly. */
  lemma AgreeStepIff(m: Machine, q: CopyMachine, st: Step)
    requires Valid(m) && Agree(m, q) && Enabled(m, st)
    ensures CopyEnabled(q, st)
    ensures Agree(Next(m, st), CopyNext(q, st)) <==> Orderly(m, q, st)
  {
    match st
    case Load(_, _, _) => AgreeLoadIff(m, q, st);
    case SetValue(_, _, _) => AgreeWriteIff(m, q, st);
    case DeleteValue(_, _) => AgreeWriteIff(m, q, st);
    case Save(r) => AgreeSave(m, q, r);
    case Destroy(r) => AgreeDestroy(m, q, r);
    case Finish(r) => AgreeFinish(m, q, r);
    case End(r) => AgreeLeaveIff(m, q, r);
    case Tick(dt) => AgreeTick(m, q, dt);
    case Cleanup =>
  }

  predicate OrderlyRun(m: Machine, q: CopyMachine, sched: seq<Step>)
    requires Runs(m, sched)
    decreases |sched|
  {
    sched == [] ||
    (&& Orderly(m, q, sched[0])
     && (CopyEnabled(q, sched[0]) ==> OrderlyRun(Next(m, sched[0]), CopyNext(q, sched[0]), sched[1..])))
  }

  /** An orderly run keeps the stores in agreement. */
  lemma {:induction false} AgreeAfterOrderly(m: Machine, q: CopyMachine, sched: seq<Step>)
    requires Valid(m) && Agree(m, q) && Runs(m, sched)
    ensures OrderlyRun(m, q, sched) ==> CopyRuns(q, sched) && Agree(Run(m, sched), CopyRun(q, sched))
    decreases |sched|
  {
    if sched != [] {
      AgreeStepIff(m, q, sched[0]);
      NextValid(m, sched[0]);
      if Orderly(m, q, sched[0]) {
        AgreeAfterOrderly(Next(m, sched[0]), CopyNext(q, sched[0]), sched[1..]);
      }
    }
  }

  /** A store without entries of ours agrees with an empty in-memory store. */
  lemma InitAgrees(now: int, maxAge: int, prefix: string, entries: Entries)
    requires forall id: Id :: !Live(entries, now, Key(prefix, id))
    ensures Agree(Init(now, maxAge), CopyInit(now, maxAge, prefix, entries))
  {
  }

  // ---- what requests see of it ----

  predicate NoHolder(m: Machine, id: Id) {
    forall r <- m.flights :: m.flights[r].id != id
  }

  /** What a lookup of a session finds in memory, in the form that Redis would answer. */
  function FindInPool(m: Machine, id: Id): Option<Saved> {
    if Hits(m.pool, m.now, id) then Some(Encode(id, m.pool.recs[id])) else None
  }

  /** The stores cannot be told apart: every request has the same session in both, same id, hit
      or miss (IsNew), values and flags, and a lookup of a session that no request holds finds the
      same in both, off the instant of its expiry. */
  ghost predicate Same(m: Machine, q: CopyMachine) {
    && m.flights.Keys == q.flights.Keys
    && (forall r <- m.flights ::
          && q.flights[r].id == m.flights[r].id && m.flights[r].id in m.pool.recs
          && q.flights[r].rec == m.pool.recs[m.flights[r].id])
    && (forall id <- m.pool.recs :: m.now != m.pool.recs[id].expiresAt && NoHolder(m, id) ==>
          Find(q.entries, q.prefix, q.now, id) == FindInPool(m, id))
  }

  ghost predicate SameThroughout(m: Machine, q: CopyMachine, sched: seq<Step>)
    requires Runs(m, sched)
    decreases |sched|
  {
    && Same(m, q)
    && (sched != [] ==>
          && CopyEnabled(q, sched[0])
          && SameThroughout(Next(m, sched[0]), CopyNext(q, sched[0]), sched[1..]))
  }

  lemma AgreeIsSame(m: Machine, q: CopyMachine)
    requires Valid(m) && Agree(m, q)
    ensures Same(m, q)
  {
    assert forall r <- m.flights :: AgreeFlight(m, m.flights[r], q.flights[r]);
    forall id | id in m.pool.recs && m.now != m.pool.recs[id].expiresAt && NoHolder(m, id)
      ensures Find(q.entries, q.prefix, q.now, id) == FindInPool(m, id)
    {
      if Live(q.entries, q.now, Key(q.prefix, id)) {
        assert AgreeLive(m, q, id);
      }
    }
  }

  lemma LoadShows(m: Machine, q: CopyMachine, st: Step)
    requires Valid(m) && Agree(m, q) && st.Load? && Enabled(m, st) && CopyEnabled(q, st) && !Orderly(m, q, st)
    ensures !Same(Next(m, st), CopyNext(q, st))
  {
    var id, m', q' := LoadedId(m.pool, m.now, st.cookie, st.newId), Next(m, st), CopyNext(q, st);
    if m.now == m.pool.recs[id].expiresAt {
      assert Live(q.entries, q.now, Key(q.prefix, id)) ==> AgreeLive(m, q, id);
      assert q'.flights[st.r].id != m'.flights[st.r].id;
    } else {
      var o :| o in q.flights && q.flights[o].id == id && !Clean(q.flights[o].rec);
      assert AgreeFlight(m, m.flights[o], q.flights[o]);
      assert q'.flights[o].rec != m'.pool.recs[m'.flights[o].id];
    }
  }

  lemma WriteShows(m: Machine, q: CopyMachine, st: Step)
    requires Valid(m) && Agree(m, q) && (st.SetValue? || st.DeleteValue?) && Enabled(m, st) && !SoleHolder(q, st.r)
    ensures !Same(Next(m, st), CopyNext(q, st))
  {
    var m', q' := Next(m, st), CopyNext(q, st);
    var o :| o in q.flights && o != st.r && q.flights[o].id == q.flights[st.r].id;
    assert AgreeFlight(m, m.flights[o], q.flights[o]) && AgreeFlight(m, m.flights[st.r], q.flights[st.r]);
    assert q'.flights[o] == q.flights[o] && Clean(q.flights[o].rec);
    assert m'.pool.recs[m'.flights[o].id].modified;
  }

  lemma LeaveShows(m: Machine, q: CopyMachine, r: nat)
    requires Valid(m) && Agree(m, q) && Enabled(m, End(r)) && !NothingUnsaved(q, r)
    ensures !Same(Next(m, End(r)), CopyNext(q, End(r)))
  {
    var m', id := Next(m, End(r)), q.flights[r].id;
    assert AgreeFlight(m, m.flights[r], q.flights[r]) && AgreeLive(m, q, id);
    forall o | o in m'.flights
      ensures m'.flights[o].id != id
    {
      assert AgreeFlight(m, m.flights[o], q.flights[o]);
      var x :| x in q.flights && q.flights[x].id == id && q.flights[x].rec.modified;
      assert AgreeFlight(m, m.flights[x], q.flights[x]);
    }
    assert NoHolder(m', id) && Hits(m'.pool, m'.now, id);
  }

  /** From agreement, a step that is not orderly shows at once. */
  lemma DisorderShows(m: Machine, q: CopyMachine, st: Step)
    requires Valid(m) && Agree(m, q) && Enabled(m, st) && CopyEnabled(q, st) && !Orderly(m, q, st)
    ensures !Same(Next(m, st), CopyNext(q, st))
  {
    match st
    case Load(_, _, _) => LoadShows(m, q, st);
    case SetValue(_, _, _) => WriteShows(m, q, st);
    case DeleteValue(_, _) => WriteShows(m, q, st);
    case End(r) => LeaveShows(m, q, r);
    case _ =>
  }

  lemma {:induction false} SameIffOrderly(m: Machine, q: CopyMachine, sched: seq<Step>)
    requires Valid(m) && Agree(m, q) && Runs(m, sched)
    ensures SameThroughout(m, q, sched) <==> OrderlyRun(m, q, sched)
    decreases |sched|
  {
    AgreeIsSame(m, q);
    if sched != [] {
      AgreeStepIff(m, q, sched[0]);
      NextValid(m, sched[0]);
      if Orderly(m, q, sched[0]) {
        SameIffOrderly(Next(m, sched[0]), CopyNext(q, sched[0]), sched[1..]);
      } else {
        DisorderShows(m, q, sched[0]);
      }
    }
  }

  /** From the start, with requests overlapping freely and the in-memory cleanup firing wherever
      it likes, nothing ever tells the two stores apart exactly when the run is orderly. */
  lemma StoresAgreeIff(now: int, maxAge: int, prefix: string, entries: Entries, sched: seq<Step>)
    requires forall id: Id :: !Live(entries, now, Key(prefix, id))
    requires Runs(Init(now, maxAge), sched)
    ensures var m, q := Init(now, maxAge), CopyInit(now, maxAge, prefix, entries);
            && (SameThroughout(m, q, sched) <==> OrderlyRun(m, q, sched))
            && (OrderlyRun(m, q, sched) ==> CopyRuns(q, sched) && Same(Run(m, sched), CopyRun(q, sched)))
  {
    var m, q := Init(now, maxAge), CopyInit(now, maxAge, prefix, entries);
    InitAgrees(now, maxAge, prefix, entries);
    SameIffOrderly(m, q, sched);
    AgreeAfterOrderly(m, q, sched);
    if OrderlyRun(m, q, sched) {
      RunValid(m, sched);
      AgreeIsSame(Run(m, sched), CopyRun(q, sched));
    }
  }

  /** A request that writes to a live session and leaves without a save separates the stores:
      the in-memory one shows the write to every later request, Redis never had it. */
  lemma UnsavedWriteSeparates(m: Machine, q: CopyMachine, id: Id, newId: Id, k: string, v: Value)
    requires Valid(m) && Agree(m, q) && m.flights == map[] && id != ""
    requires Hits(m.pool, m.now, id) && m.now != m.pool.recs[id].expiresAt && k !in m.pool.recs[id].values
    requires Enabled(m, Load(0, Some(id), newId))
    ensures var sched := [Load(0, Some(id), newId), SetValue(0, k, v), End(0)];
            && Runs(m, sched) && CopyRuns(q, sched)
            && var m', q' := Run(m, sched), CopyRun(q, sched);
               && Hits(m'.pool, m'.now, id) && Lookup(m'.pool.recs[id], k) == Some(v)
               && Find(q'.entries, q'.prefix, q'.now, id) == Some(Encode(id, m.pool.recs[id]))
  {
    AgreeIsSame(m, q);
    var load, write := Load(0, Some(id), newId), SetValue(0, k, v);
    var m1, q1 := Next(m, load), CopyNext(q, load);
    RunCons(Next(m1, write), End(0), []);
    RunCons(m1, write, [End(0)]);
    RunCons(m, load, [write, End(0)]);
    CopyRunCons(CopyNext(q1, write), End(0), []);
    CopyRunCons(q1, write, [End(0)]);
    CopyRunCons(q, load, [write, End(0)]);
    assert [End(0)] + [] == [End(0)] && [write] + [End(0)] == [write, End(0)];
    assert [load] + [write, End(0)] == [load, write, End(0)];
  }

  /** The excluded instant is exactly where the stores differ: for a stored id, the two loads
      agree if and only if the clock is not at the session's expiry. */
  lemma LoadsAgreeOffTheExpiry(m: Machine, q: CopyMachine, r: nat, id: Id, newId: Id)
    requires Valid(m) && Agree(m, q)
    requires id in m.pool.stored && id != "" && Enabled(m, Load(r, Some(id), newId))
    ensures var load := Load(r, Some(id), newId);
            && CopyEnabled(q, load)
            && (Next(m, load).flights[r].id == CopyNext(q, load).flights[r].id
                <==> m.now != m.pool.recs[id].expiresAt)
  {
    assert Live(q.entries, q.now, Key(q.prefix, id)) ==> AgreeLive(m, q, id);
  }

  lemma CopyRunCons(q: CopyMachine, st: Step, rest: seq<Step>)
    requires CopyEnabled(q, st) && CopyRuns(CopyNext(q, st), rest)
    ensures CopyRuns(q, [st] + rest) && CopyRun(q, [st] + rest) == CopyRun(CopyNext(q, st), rest)
  {
    assert ([st] + rest)[1..] == rest;
  }

  // ---- when a saved write survives overlapping requests ----

  /** Every live entry is a minted session under its own key, lives until that session's
      expiry, and all copies of one session have the same expiry. */
  ghost predicate CopyValid(q: CopyMachine) {
    && (forall r <- q.flights :: q.flights[r].id in q.minted)
    && (forall r <- q.flights, o <- q.flights ::
          q.flights[r].id == q.flights[o].id ==> q.flights[r].rec.expiresAt == q.flights[o].rec.expiresAt)
    && (forall id: Id :: Live(q.entries, q.now, Key(q.prefix, id)) ==> EntryValid(q, id))
  }

  ghost predicate EntryValid(q: CopyMachine, id: Id)
    requires Live(q.entries, q.now, Key(q.prefix, id))
  {
    var e := q.entries[Key(q.prefix, id)];
    && id in q.minted && e.data.id == id && e.deadline == e.data.expiresAt
    && (forall r <- q.flights :: q.flights[r].id == id ==> q.flights[r].rec.expiresAt == e.data.expiresAt)
  }

  lemma CopyNextValid(q: CopyMachine, st: Step)
    requires CopyValid(q) && CopyEnabled(q, st)
    ensures CopyValid(CopyNext(q, st))
  {
    var q' := CopyNext(q, st);
    if st.Load? {
      CopyLoadValid(q, st);
    } else {
      forall id: Id | Live(q'.entries, q'.now, Key(q'.prefix, id))
        ensures EntryValid(q', id)
      {
        if Live(q.entries, q.now, Key(q.prefix, id)) {
          assert EntryValid(q, id);
        }
        if (st.Save? || st.Finish?) && Key(q.prefix, id) == Key(q.prefix, q.flights[st.r].id) {
          KeyInjective(q.prefix, id, q.flights[st.r].id);
        }
      }
    }
  }

  lemma CopyLoadValid(q: CopyMachine, st: Step)
    requires CopyValid(q) && st.Load? && CopyEnabled(q, st)
    ensures CopyValid(CopyNext(q, st))
  {
    var q' := CopyNext(q, st);
    if st.cookie.Some? && Live(q.entries, q.now, Key(q.prefix, st.cookie.value)) {
      assert EntryValid(q, st.cookie.value);
    }
    forall id: Id | Live(q'.entries, q'.now, Key(q'.prefix, id))
      ensures EntryValid(q', id)
    {
      assert Live(q.entries, q.now, Key(q.prefix, id)) && EntryValid(q, id);
    }
  }

  /** Every schedule keeps this. */
  lemma {:induction false} CopyRunValid(q: CopyMachine, sched: seq<Step>)
    requires CopyValid(q) && CopyRuns(q, sched)
    ensures CopyValid(CopyRun(q, sched))
    decreases |sched|
  {
    if sched != [] {
      CopyNextValid(q, sched[0]);
      CopyRunValid(CopyNext(q, sched[0]), sched[1..]);
    }
  }

  lemma {:induction false} MintedWereDrawn(q: CopyMachine, sched: seq<Step>)
    requires CopyRuns(q, sched)
    ensures CopyRun(q, sched).minted <= q.minted + Drawn(sched)
    decreases |sched|
  {
    if sched != [] {
      MintedWereDrawn(CopyNext(q, sched[0]), sched[1..]);
      assert sched == [sched[0]] + sched[1..];
    }
  }

  /** In every state reachable from a store without entries of ours, under any interleaving and any
      cookies, Redis holds sessions drawn from the generator only, each under its own key and
      until its own expiry. */
  lemma RedisReachableStates(now: int, maxAge: int, prefix: string, entries: Entries, sched: seq<Step>, id: Id)
    requires forall x: Id :: !Live(entries, now, Key(prefix, x))
    requires CopyRuns(CopyInit(now, maxAge, prefix, entries), sched)
    ensures var q := CopyRun(CopyInit(now, maxAge, prefix, entries), sched);
            && CopyValid(q)
            && (Live(q.entries, q.now, Key(q.prefix, id)) ==>
                  var e := q.entries[Key(q.prefix, id)];
                  && id in Drawn(sched) && e.data.id == id
                  && e.deadline == e.data.expiresAt)
  {
    var q0 := CopyInit(now, maxAge, prefix, entries);
    CopyRunValid(q0, sched);
    MintedWereDrawn(q0, sched);
    var q := CopyRun(q0, sched);
    assert Live(q.entries, q.now, Key(q.prefix, id)) ==> EntryValid(q, id);
  }

  /** What a load of the session would find under the key k: a value, or nothing. */
  predicate Finds(q: CopyMachine, id: Id, k: string, found: Option<Value>) {
    var data := Find(q.entries, q.prefix, q.now, id);
    data.Some? && Lookup(Decode(data.value), k) == found
  }

  /** The step writes `k` in a copy of session `id`, or destroys that session. */
  predicate CopyDisturbs(q: CopyMachine, st: Step, id: Id, k: string)
    requires CopyEnabled(q, st)
  {
    match st
    case SetValue(r, key, _) => q.flights[r].id == id && key == k
    case DeleteValue(r, key) => q.flights[r].id == id && key == k
    case Destroy(r) => q.flights[r].cookie == Some(id)
    case _ => false
  }

  predicate CopyUndisturbed(q: CopyMachine, sched: seq<Step>, id: Id, k: string)
    requires CopyRuns(q, sched)
    decreases |sched|
  {
    sched == [] ||
    (!CopyDisturbs(q, sched[0], id, k) && CopyUndisturbed(CopyNext(q, sched[0]), sched[1..], id, k))
  }

  /** No request in flight has a copy of the session that differs in k. */
  predicate NoStaleCopy(q: CopyMachine, id: Id, k: string, found: Option<Value>) {
    forall r <- q.flights :: q.flights[r].id == id ==> Lookup(q.flights[r].rec, k) == found
  }

  lemma KeptByStep(q: CopyMachine, st: Step, id: Id, k: string, found: Option<Value>)
    requires CopyValid(q) && CopyEnabled(q, st) && !CopyDisturbs(q, st, id, k)
    requires Finds(q, id, k, found) && NoStaleCopy(q, id, k, found)
    requires CopyNext(q, st).now < Find(q.entries, q.prefix, q.now, id).value.expiresAt
    ensures var q' := CopyNext(q, st);
            && Finds(q', id, k, found) && NoStaleCopy(q', id, k, found)
            && Find(q'.entries, q'.prefix, q'.now, id).value.expiresAt
               == Find(q.entries, q.prefix, q.now, id).value.expiresAt
  {
    assert EntryValid(q, id);
    match st
    case Load(_, cookie, _) =>
      if cookie.Some? {
        var other := cookie.value;
        if Key(q.prefix, other) == Key(q.prefix, id) {
          KeyInjective(q.prefix, other, id);
        }
        assert Live(q.entries, q.now, Key(q.prefix, other)) ==> EntryValid(q, other);
      }
    case Destroy(r) =>
      var c := q.flights[r].cookie;
      if c.Some? && Key(q.prefix, c.value) == Key(q.prefix, id) {
        KeyInjective(q.prefix, c.value, id);
      }
    case Save(r) => KeyInjectiveIfSame(q.prefix, q.flights[r].id, id);
    case Finish(r) => KeyInjectiveIfSame(q.prefix, q.flights[r].id, id);
    case _ =>
  }

  lemma KeyInjectiveIfSame(prefix: string, a: Id, b: Id)
    ensures Key(prefix, a) == Key(prefix, b) <==> a == b
  {
    if Key(prefix, a) == Key(prefix, b) {
      KeyInjective(prefix, a, b);
    }
  }

  lemma {:induction false} ClockAdvances(q: CopyMachine, sched: seq<Step>)
    requires CopyRuns(q, sched)
    ensures q.now <= CopyRun(q, sched).now
    decreases |sched|
  {
    if sched != [] {
      ClockAdvances(CopyNext(q, sched[0]), sched[1..]);
    }
  }

  lemma {:induction false} KeptByRun(q: CopyMachine, sched: seq<Step>, id: Id, k: string, found: Option<Value>)
    requires CopyValid(q) && CopyRuns(q, sched) && CopyUndisturbed(q, sched, id, k)
    requires Finds(q, id, k, found) && NoStaleCopy(q, id, k, found)
    requires CopyRun(q, sched).now < Find(q.entries, q.prefix, q.now, id).value.expiresAt
    ensures Finds(CopyRun(q, sched), id, k, found)
    decreases |sched|
  {
    if sched != [] {
      var q1 := CopyNext(q, sched[0]);
      ClockAdvances(q1, sched[1..]);
      KeptByStep(q, sched[0], id, k, found);
      CopyNextValid(q, sched[0]);
      KeptByRun(q1, sched[1..], id, k, found);
    }
  }

  /** The continuations in which nobody writes k in the session, destroys it or lets it expire. */
  predicate LeavesAlone(q: CopyMachine, sched: seq<Step>, id: Id, k: string, expiry: int) {
    CopyRuns(q, sched) && CopyUndisturbed(q, sched, id, k) && CopyRun(q, sched).now < expiry
  }

  /** What Redis holds under a key of a live session, a saved value or a saved deletion, is what
      every load finds in every continuation that leaves it alone, exactly when no request in
      flight has a copy of the session that differs in that key.  (The in-memory store needs no
      such condition: see `WriteIsSeen`.) */
  lemma SavedWriteSurvivesIff(q: CopyMachine, id: Id, k: string, found: Option<Value>)
    requires CopyValid(q) && Finds(q, id, k, found)
    ensures var expiry := Find(q.entries, q.prefix, q.now, id).value.expiresAt;
            (forall sched | LeavesAlone(q, sched, id, k, expiry) :: Finds(CopyRun(q, sched), id, k, found))
            <==> NoStaleCopy(q, id, k, found)
  {
    var expiry := Find(q.entries, q.prefix, q.now, id).value.expiresAt;
    assert EntryValid(q, id);
    if NoStaleCopy(q, id, k, found) {
      forall sched | LeavesAlone(q, sched, id, k, expiry)
        ensures Finds(CopyRun(q, sched), id, k, found)
      {
        KeptByRun(q, sched, id, k, found);
      }
    } else {
      var r :| r in q.flights && q.flights[r].id == id && Lookup(q.flights[r].rec, k) != found;
      CopyRunCons(q, Save(r), []);
      var sched := [Save(r)] + [];
      assert sched[1..] == [];
      assert LeavesAlone(q, sched, id, k, expiry);
      assert !Finds(CopyRun(q, sched), id, k, found);
    }
  }

  /** The state in which two requests hold copies of one stored session and each has written. */
  ghost predicate BothWrote(q: CopyMachine, id: Id, d: Saved, k: string, k': string, v: Value) {
    && q.flights.Keys == {0, 1}
    && (forall r <- q.flights :: q.flights[r].id == id && q.flights[r].rec.modified)
    && q.flights[0].rec.values == d.values[k := v] && q.flights[1].rec.values == d.values[k' := v]
    && q.flights[0].rec.expiresAt == q.flights[1].rec.expiresAt == d.expiresAt
    && q.now < d.expiresAt
  }

  lemma LastWriterStays(q: CopyMachine, id: Id, d: Saved, k: string, k': string, v: Value)
    requires BothWrote(q, id, d, k, k', v) && k != k' && k !in d.values
    ensures CopyRuns(q, [Finish(0), Finish(1)])
    ensures var found := Find(CopyRun(q, [Finish(0), Finish(1)]).entries, q.prefix, q.now, id);
            found.Some? && k' in found.value.values && k !in found.value.values
  {
    var q1 := CopyNext(q, Finish(0));
    assert q1.flights[1] == q.flights[1];
    CopyRunCons(q1, Finish(1), []);
    CopyRunCons(q, Finish(0), [Finish(1)]);
  }

  /** Stale copies arise through the middleware alone: of two requests that load the same session
      and write different keys, the copying store keeps the last writer's only. */
  lemma OverlapLosesAWrite(q: CopyMachine, id: Id, newId: Id, k: string, k': string, v: Value)
    requires q.flights == map[] && k != k' && id != "" && newId != "" && newId !in q.minted
    requires Find(q.entries, q.prefix, q.now, id).Some?
    requires var d := Find(q.entries, q.prefix, q.now, id).value;
             d.id == id && q.now < d.expiresAt && k !in d.values && k' !in d.values
    ensures var sched := [Load(0, Some(id), newId), Load(1, Some(id), newId), SetValue(0, k, v), SetValue(1, k', v)]
                         + [Finish(0), Finish(1)];
            && CopyRuns(q, sched)
            && var found := Find(CopyRun(q, sched).entries, q.prefix, q.now, id);
               found.Some? && k' in found.value.values && k !in found.value.values
  {
    var d := Find(q.entries, q.prefix, q.now, id).value;
    var q1 := CopyNext(q, Load(0, Some(id), newId));
    var q2 := CopyNext(q1, Load(1, Some(id), newId));
    var q3 := CopyNext(q2, SetValue(0, k, v));
    var q4 := CopyNext(q3, SetValue(1, k', v));
    assert BothWrote(q4, id, d, k, k', v) && q4.prefix == q.prefix && q4.now == q.now;
    LastWriterStays(q4, id, d, k, k', v);
    var tail := [Finish(0), Finish(1)];
    CopyRunCons(q3, SetValue(1, k', v), tail);
    CopyRunCons(q2, SetValue(0, k, v), [SetValue(1, k', v)] + tail);
    CopyRunCons(q1, Load(1, Some(id), newId), [SetValue(0, k, v)] + ([SetValue(1, k', v)] + tail));
    CopyRunCons(q, Load(0, Some(id), newId),
                [Load(1, Some(id), newId)] + ([SetValue(0, k, v)] + ([SetValue(1, k', v)] + tail)));
    assert [Load(0, Some(id), newId), Load(1, Some(id), newId), SetValue(0, k, v), SetValue(1, k', v)] + tail
        == [Load(0, Some(id), newId)]
           + ([Load(1, Some(id), newId)] + ([SetValue(0, k, v)] + ([SetValue(1, k', v)] + tail)));
  }
}
