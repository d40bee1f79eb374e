/** The session package with its real, shared objects: MemoryStore hands out the very object
    it stores, so concurrent requests for one id work on one Session.  Every method is proved
    to do what module SessionSpec says of the pool or the machine. */
module Sessions {
  import opened Basics
  import opened SessionSpec

  class Session {
    var ID: string
    var Values: map<string, Value>
    var CreatedAt: int
    var ExpiresAt: int
    var IsNew: bool
    var Modified: bool

    constructor (id: string, now: int, maxAge: int)
      ensures ID == id && ToRec() == NewRec(now, maxAge)
    {
      ID := id;
      Values := map[];
      CreatedAt := now;
      ExpiresAt := now + maxAge;
      IsNew := true;
      Modified := true;
    }

    /** What decoding the JSON form gives: IsNew and Modified are not part of it. */
    constructor Decoded(id: string, values: map<string, Value>, createdAt: int, expiresAt: int)
      ensures ID == id && ToRec() == Rec(values, createdAt, expiresAt, false, false)
    {
      ID := id;
      Values := values;
      CreatedAt := createdAt;
      ExpiresAt := expiresAt;
      IsNew := false;
      Modified := false;
    }

    function ToRec(): Rec
      reads this
    {
      Rec(Values, CreatedAt, ExpiresAt, IsNew, Modified)
    }

    method Set(key: string, value: Value)
      modifies this
      ensures ID == old(ID)
      ensures ToRec() == old(ToRec()).(values := old(Values)[key := value], modified := true)
    {
      Values := Values[key := value];
      Modified := true;
    }

    method Get(key: string) returns (v: Option<Value>)
      ensures v == if key in Values then Some(Values[key]) else None
      ensures v == Lookup(ToRec(), key)
    {
      v := if key in Values then Some(Values[key]) else None;
    }

    method Delete(key: string)
      modifies this
      ensures ID == old(ID)
      ensures ToRec() == old(ToRec()).(values := old(Values) - {key}, modified := true)
    {
      Values := Values - {key};
      Modified := true;
    }
  }

  class MemoryStore {
    var sessions: map<string, Session>

    constructor ()
      ensures sessions == map[]
    {
      sessions := map[];
    }

    method Get(now: int, id: string) returns (s: Session?)
      ensures s != null <==> id in sessions && now <= sessions[id].ExpiresAt
      ensures s != null ==> s == sessions[id]
    {
      if id !in sessions || sessions[id].ExpiresAt < now {
        return null;
      }
      return sessions[id];
    }

    method Save(s: Session)
      modifies this
      ensures sessions == old(sessions)[s.ID := s]
    {
      sessions := sessions[s.ID := s];
    }

    method Delete(id: string)
      modifies this
      ensures sessions == old(sessions) - {id}
    {
      sessions := sessions - {id};
    }

    /** One firing of the cleanup ticker: a loop that deletes while it ranges over the map. */
    method Cleanup(now: int)
      modifies this
      ensures sessions == map id | id in old(sessions) && now <= old(sessions)[id].ExpiresAt :: old(sessions)[id]
    {
      var todo := sessions.Keys;
      while todo != {}
        invariant todo <= sessions.Keys <= old(sessions).Keys
        invariant forall id <- sessions :: sessions[id] == old(sessions)[id]
        invariant forall id <- sessions :: id in todo || now <= sessions[id].ExpiresAt
        invariant forall id <- old(sessions) :: id in sessions || old(sessions)[id].ExpiresAt < now
        decreases |todo|
      {
        var id :| id in todo;
        todo := todo - {id};
        if sessions[id].ExpiresAt < now {
          sessions := sessions - {id};
        }
      }
    }
  }

  /** A Set-Cookie header for the session cookie: its value and its Max-Age attribute. */
  datatype SetCookie = SetCookie(value: string, maxAge: int)

  /** `int(d.Seconds())`: whole seconds, truncated toward zero. */
  function WholeSeconds(d: int): (s: int)
    ensures d >= 0 ==> s * SECOND <= d < (s + 1) * SECOND
    ensures d < 0 ==> (s - 1) * SECOND < d <= s * SECOND
  {
    if d >= 0 then d / SECOND else -((-d) / SECOND)
  }

  ghost function RecsOf(objects: map<string, Session>): map<string, Rec>
    reads objects.Values
  {
    map id | id in objects :: objects[id].ToRec()
  }

  lemma RecsOfWritten(objects: map<string, Session>, before: map<string, Rec>, id: string)
    requires id in objects && before.Keys == objects.Keys
    requires forall x <- objects :: x != id ==> objects[x].ToRec() == before[x]
    ensures RecsOf(objects) == before[id := objects[id].ToRec()]
  {
  }

  class Manager {
    const store: MemoryStore
    const maxAge: int
    /** The object of every session this manager ever created, by id. */
    ghost var objects: map<string, Session>

    constructor (store: MemoryStore, maxAge: int)
      requires store.sessions == map[]
      ensures Valid() && this.store == store && ToPool() == Pool(map[], {})
      ensures this.maxAge == if maxAge == 0 then 24 * 3600 * SECOND else maxAge
    {
      this.store := store;
      this.maxAge := if maxAge == 0 then 24 * 3600 * SECOND else maxAge;
      objects := map[];
    }

    /** One live object per id: whatever object the store holds under an id is the one object
        ever created for that id. */
    ghost predicate Valid()
      reads this, store, objects.Values
    {
      && (forall id <- objects :: objects[id].ID == id)
      && (forall id <- store.sessions :: id in objects && store.sessions[id] == objects[id])
    }

    ghost function ToPool(): Pool
      reads this, store, objects.Values
    {
      Pool(RecsOf(objects), store.sessions.Keys)
    }

    /** `newId` is what the id generator returns should a session have to be created. */
    method GetSession(now: int, cookie: Option<string>, newId: string) returns (s: Session)
      requires Valid() && Fresh(ToPool(), newId)
      modifies this, objects.Values
      ensures Valid() && store.sessions == old(store.sessions)
      ensures ToPool() == old(PoolLoad(ToPool(), now, maxAge, cookie, newId))
      ensures s.ID == old(LoadedId(ToPool(), now, cookie, newId))
      ensures s.ID in objects && objects[s.ID] == s
      ensures forall id <- old(objects) :: id in objects && objects[id] == old(objects)[id]
      ensures fresh(objects.Values - old(objects).Values)
    {
      if cookie.Some? && cookie.value != "" {
        var found := store.Get(now, cookie.value);
        if found != null {
          found.IsNew := false;
          found.Modified := false;
          RecsOfWritten(objects, old(RecsOf(objects)), found.ID);
          return found;
        }
      }
      s := NewSession(now, newId);
    }

    method NewSession(now: int, newId: string) returns (s: Session)
      requires Valid() && Fresh(ToPool(), newId)
      modifies this
      ensures Valid() && fresh(s) && s.ID == newId && objects == old(objects)[newId := s]
      ensures ToPool() == old(ToPool()).(recs := old(ToPool()).recs[newId := NewRec(now, maxAge)])
    {
      s := new Session(newId, now, maxAge);
      objects := objects[newId := s];
    }

    /** A write to a session of this manager; no other session changes with it. */
    method Write(s: Session, key: string, value: Value)
      requires Valid() && s.ID in objects && objects[s.ID] == s
      modifies s
      ensures Valid() && s.ID == old(s.ID) && ToPool() == PoolSet(old(ToPool()), s.ID, key, value)
    {
      s.Set(key, value);
      RecsOfWritten(objects, old(RecsOf(objects)), s.ID);
    }

    method SaveSession(s: Session) returns (c: SetCookie)
      requires Valid() && s.ID in objects && objects[s.ID] == s
      modifies store
      ensures Valid() && ToPool() == PoolSave(old(ToPool()), s.ID)
      ensures c == SetCookie(s.ID, WholeSeconds(maxAge))
    {
      store.Save(s);
      c := SetCookie(s.ID, WholeSeconds(maxAge));
    }

    method DestroySession(cookie: Option<string>) returns (c: SetCookie)
      requires Valid()
      modifies store
      ensures Valid() && ToPool() == PoolDestroy(old(ToPool()), cookie)
      ensures c == SetCookie("", -1)
    {
      if cookie.Some? && cookie.value != "" {
        store.Delete(cookie.value);
      }
      c := SetCookie("", -1);
    }

    /** The tail of the session middleware, after the handler has returned. */
    method SaveIfTouched(s: Session) returns (c: Option<SetCookie>)
      requires Valid() && s.ID in objects && objects[s.ID] == s
      modifies store
      ensures Valid() && ToPool() == PoolFinish(old(ToPool()), s.ID)
      ensures c == if s.Modified || s.IsNew then Some(SetCookie(s.ID, WholeSeconds(maxAge))) else None
    {
      c := None;
      if s.Modified || s.IsNew {
        var cookie := SaveSession(s);
        c := Some(cookie);
      }
    }
  }

  /** The request's cookie and the session object its context carries. */
  datatype Serving = Serving(cookie: Option<string>, session: Session)

  ghost function Flights(serving: map<nat, Serving>, held: map<nat, string>): map<nat, Flight>
    requires held.Keys == serving.Keys
  {
    map r | r in serving :: Flight(serving[r].cookie, held[r])
  }

  lemma FlightsAdd(serving: map<nat, Serving>, held: map<nat, string>, r: nat, s: Serving, id: string)
    requires held.Keys == serving.Keys
    ensures Flights(serving[r := s], held[r := id]) == Flights(serving, held)[r := Flight(s.cookie, id)]
  {
  }

  lemma FlightsRemove(serving: map<nat, Serving>, held: map<nat, string>, r: nat)
    requires held.Keys == serving.Keys
    ensures Flights(serving - {r}, held - {r}) == Flights(serving, held) - {r}
  {
  }

  /** A server with requests in flight: the manager, the clock and, for each request, the
      object that its load returned. */
  class Server {
    const manager: Manager
    var now: int
    var serving: map<nat, Serving>
    /** The id of the session each request holds. */
    ghost var held: map<nat, string>

    constructor (manager: Manager, now: int)
      requires manager.Valid() && manager.ToPool() == Pool(map[], {})
      ensures Valid() && ToMachine() == Init(now, manager.maxAge)
      ensures this.manager == manager
    {
      this.manager := manager;
      this.now := now;
      serving := map[];
      held := map[];
    }

    ghost predicate Valid()
      reads this, manager, manager.store, manager.objects.Values
    {
      && manager.Valid()
      && held.Keys == serving.Keys
      && forall r <- serving :: held[r] in manager.objects && manager.objects[held[r]] == serving[r].session
    }

    ghost function ToMachine(): Machine
      requires Valid()
      reads this, manager, manager.store, manager.objects.Values
    {
      Machine(now, manager.maxAge, manager.ToPool(),
              Flights(serving, held))
    }

    method Attach(r: nat, cookie: Option<string>, s: Session)
      requires Valid() && s.ID in manager.objects && manager.objects[s.ID] == s
      modifies `serving, `held
      ensures Valid()
      ensures ToMachine() == old(ToMachine()).(flights := old(ToMachine()).flights[r := Flight(cookie, s.ID)])
    {
      FlightsAdd(serving, held, r, Serving(cookie, s), s.ID);
      serving := serving[r := Serving(cookie, s)];
      held := held[r := s.ID];
    }

    method Detach(r: nat)
      requires Valid()
      modifies `serving, `held
      ensures Valid()
      ensures ToMachine() == old(ToMachine()).(flights := old(ToMachine()).flights - {r})
    {
      FlightsRemove(serving, held, r);
      serving := serving - {r};
      held := held - {r};
    }

    method DoLoad(r: nat, cookie: Option<string>, newId: string)
      requires Valid() && Enabled(ToMachine(), Load(r, cookie, newId))
      modifies this, manager, manager.objects.Values
      ensures Valid() && ToMachine() == Next(old(ToMachine()), Load(r, cookie, newId))
      ensures fresh(manager.objects.Values - old(manager.objects.Values))
    {
      var s := manager.GetSession(now, cookie, newId);
      Attach(r, cookie, s);
    }

    method DoSet(r: nat, key: string, value: Value)
      requires Valid() && r in serving
      modifies serving[r].session
      ensures Valid() && ToMachine() == Next(old(ToMachine()), SetValue(r, key, value))
    {
      manager.Write(serving[r].session, key, value);
    }

    method DoDelete(r: nat, key: string)
      requires Valid() && r in serving
      modifies serving[r].session
      ensures Valid() && ToMachine() == Next(old(ToMachine()), DeleteValue(r, key))
    {
      var s := serving[r].session;
      s.Delete(key);
      RecsOfWritten(manager.objects, old(RecsOf(manager.objects)), s.ID);
    }

    method DoFinish(r: nat)
      requires Valid() && r in serving
      modifies this, manager.store
      ensures Valid() && ToMachine() == Next(old(ToMachine()), Finish(r))
    {
      var _ := manager.SaveIfTouched(serving[r].session);
      Detach(r);
    }

    method DoCleanup()
      requires Valid()
      modifies manager.store
      ensures Valid() && ToMachine() == Next(old(ToMachine()), Cleanup)
    {
      manager.store.Cleanup(now);
      assert manager.store.sessions.Keys == PoolCleanup(old(manager.ToPool()), now).stored;
    }

    /** One atomic step on the shared objects is one step of the machine over ids. */
    method Do(st: Step)
      requires Valid() && Enabled(ToMachine(), st)
      modifies this, manager, manager.store, manager.objects.Values
      ensures Valid() && ToMachine() == Next(old(ToMachine()), st)
      ensures fresh(manager.objects.Values - old(manager.objects.Values))
    {
      match st
      case Load(r, cookie, newId) => DoLoad(r, cookie, newId);
      case SetValue(r, key, value) => DoSet(r, key, value);
      case DeleteValue(r, key) => DoDelete(r, key);
      case Save(r) => var _ := manager.SaveSession(serving[r].session);
      case Destroy(r) => var _ := manager.DestroySession(serving[r].cookie);
      case Finish(r) => DoFinish(r);
      case End(r) => Detach(r);
      case Tick(dt) => now := now + dt;
      case Cleanup => DoCleanup();
    }

    /** Any schedule of any number of requests: the shared objects refine the machine. */
    method Execute(sched: seq<Step>)
      requires Valid() && Runs(ToMachine(), sched)
      modifies this, manager, manager.store, manager.objects.Values
      ensures Valid() && ToMachine() == Run(old(ToMachine()), sched)
    {
      var i := 0;
      while i < |sched|
        invariant 0 <= i <= |sched| && Valid()
        invariant Runs(ToMachine(), sched[i..])
        invariant Run(ToMachine(), sched[i..]) == Run(old(ToMachine()), sched)
        invariant fresh(manager.objects.Values - old(manager.objects.Values))
      {
        assert sched[i..][0] == sched[i] && sched[i..][1..] == sched[i + 1..];
        Do(sched[i]);
        i := i + 1;
      }
    }
  }
}
