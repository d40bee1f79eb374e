/** The session half of the auth example: login, logout and profile over the session
    middleware and the in-memory store, with the browsers' cookie jars around them.

    Whole runs are compared with a `View`, which knows one client only: its account, the
    expiry of its session, and the clock.  It has no ids, cookies, store or other clients. */
module AuthFlow {
  import opened Basics
  import opened SessionSpec
  import opened Sessions

  datatype User = User(id: string, username: string, password: string)

  datatype Reply =
    | ProfileOf(id: string, username: string)
    | NotFound
    | BadPassword
    | LoggedOut
    | Crash            // a failed type assertion in SessionProfile

  /** What serving one request does: the pool it leaves, its answer, its Set-Cookie headers. */
  datatype Outcome = Outcome(pool: Pool, reply: Reply, headers: seq<SetCookie>)

  // ---- the service, on the pool ----

  function Authenticate(users: map<string, User>, username: string, password: string): Result<User, Reply> {
    if username !in users then Err(NotFound)
    else if users[username].password != password then Err(BadPassword)
    else Ok(users[username])
  }

  function Identify(p: Pool, id: Id, u: User): Pool
    requires id in p.recs
  {
    PoolSet(PoolSet(p, id, "userID", Text(u.id)), id, "username", Text(u.username))
  }

  function Login(p: Pool, now: int, maxAge: int, users: map<string, User>, cookie: Option<Id>, newId: Id,
                 username: string, password: string): Outcome {
    match Authenticate(users, username, password)
    case Err(reply) => Outcome(p, reply, [])
    case Ok(u) =>
      var id := LoadedId(p, now, cookie, newId);
      Outcome(PoolSave(Identify(PoolLoad(p, now, maxAge, cookie, newId), id, u), id),
              ProfileOf(u.id, u.username),
              [SetCookie(id, WholeSeconds(maxAge))])
  }

  function TailHeaders(p: Pool, maxAge: int, id: Id): seq<SetCookie>
    requires id in p.recs
  {
    if p.recs[id].modified || p.recs[id].isNew then [SetCookie(id, WholeSeconds(maxAge))] else []
  }

  function Logout(p: Pool, now: int, maxAge: int, cookie: Option<Id>, newId: Id): Outcome {
    var id := LoadedId(p, now, cookie, newId);
    var p1 := PoolDestroy(PoolLoad(p, now, maxAge, cookie, newId), cookie);
    Outcome(PoolFinish(p1, id), LoggedOut, [SetCookie("", -1)] + TailHeaders(p1, maxAge, id))
  }

  function ProfileReply(rec: Rec): Reply {
    if rec.isNew || "userID" !in rec.values then NotFound
    else if "username" in rec.values && rec.values["userID"].Text? && rec.values["username"].Text? then
      ProfileOf(rec.values["userID"].text, rec.values["username"].text)
    else Crash
  }

  function Profile(p: Pool, now: int, maxAge: int, cookie: Option<Id>, newId: Id): Outcome {
    var id := LoadedId(p, now, cookie, newId);
    var p1 := PoolLoad(p, now, maxAge, cookie, newId);
    Outcome(PoolFinish(p1, id), ProfileReply(p1.recs[id]), TailHeaders(p1, maxAge, id))
  }

  // ---- the service, on shared objects ----

  class AuthService {
    const manager: Manager
    const users: map<string, User>

    constructor (manager: Manager, users: map<string, User>)
      ensures this.manager == manager && this.users == users
    {
      this.manager := manager;
      this.users := users;
    }

    /** The two writes of SessionLogin. */
    method SetUser(sess: Session, u: User)
      requires manager.Valid() && sess.ID in manager.objects && manager.objects[sess.ID] == sess
      modifies sess
      ensures manager.Valid() && sess.ID == old(sess.ID)
      ensures manager.ToPool() == Identify(old(manager.ToPool()), sess.ID, u)
    {
      manager.Write(sess, "userID", Text(u.id));
      manager.Write(sess, "username", Text(u.username));
    }

    /** /session/login skips the session middleware and loads and saves by itself. */
    method SessionLogin(now: int, cookie: Option<string>, newId: string, username: string, password: string)
      returns (reply: Reply, headers: seq<SetCookie>)
      requires manager.Valid() && Fresh(manager.ToPool(), newId)
      modifies manager, manager.store, manager.objects.Values
      ensures manager.Valid() && fresh(manager.objects.Values - old(manager.objects.Values))
      ensures reply == if username !in users then NotFound
                       else if users[username].password != password then BadPassword
                       else ProfileOf(users[username].id, users[username].username)
      ensures !reply.ProfileOf? ==> manager.ToPool() == old(manager.ToPool()) && headers == []
      ensures Outcome(manager.ToPool(), reply, headers)
           == old(Login(manager.ToPool(), now, manager.maxAge, users, cookie, newId, username, password))
    {
      var user := Authenticate(users, username, password);
      if user.Err? {
        return user.error, [];
      }
      var u := user.value;
      var sess := manager.GetSession(now, cookie, newId);
      SetUser(sess, u);
      var c := manager.SaveSession(sess);
      return ProfileOf(u.id, u.username), [c];
    }

    method SessionLogout(cookie: Option<string>) returns (reply: Reply, c: SetCookie)
      requires manager.Valid()
      modifies manager.store
      ensures manager.Valid() && manager.ToPool() == PoolDestroy(old(manager.ToPool()), cookie)
      ensures reply == LoggedOut && c == SetCookie("", -1)
    {
      c := manager.DestroySession(cookie);
      reply := LoggedOut;
    }

    method SessionProfile(sess: Session) returns (reply: Reply)
      ensures reply == ProfileReply(sess.ToRec())
    {
      if sess.IsNew {
        return NotFound;
      }
      var userID := sess.Get("userID");
      if userID == None {
        return NotFound;
      }
      var username := sess.Get("username");
      if !userID.value.Text? || username == None || !username.value.Text? {
        return Crash;
      }
      return ProfileOf(userID.value.text, username.value.text);
    }

    /** /session/logout behind the session middleware. */
    method ServeLogout(now: int, cookie: Option<string>, newId: string)
      returns (reply: Reply, headers: seq<SetCookie>)
      requires manager.Valid() && Fresh(manager.ToPool(), newId)
      modifies manager, manager.store, manager.objects.Values
      ensures manager.Valid() && fresh(manager.objects.Values - old(manager.objects.Values))
      ensures Outcome(manager.ToPool(), reply, headers)
           == old(Logout(manager.ToPool(), now, manager.maxAge, cookie, newId))
    {
      var sess := manager.GetSession(now, cookie, newId);
      var cleared;
      reply, cleared := SessionLogout(cookie);
      var saved := manager.SaveIfTouched(sess);
      headers := [cleared] + if saved.Some? then [saved.value] else [];
    }

    /** /session/profile behind the session middleware. */
    method ServeProfile(now: int, cookie: Option<string>, newId: string)
      returns (reply: Reply, headers: seq<SetCookie>)
      requires manager.Valid() && Fresh(manager.ToPool(), newId)
      modifies manager, manager.store, manager.objects.Values
      ensures manager.Valid() && fresh(manager.objects.Values - old(manager.objects.Values))
      ensures Outcome(manager.ToPool(), reply, headers)
           == old(Profile(manager.ToPool(), now, manager.maxAge, cookie, newId))
    {
      var sess := manager.GetSession(now, cookie, newId);
      reply := SessionProfile(sess);
      var saved := manager.SaveIfTouched(sess);
      headers := if saved.Some? then [saved.value] else [];
    }
  }

  // ---- cookie jars ----

  /** The session cookie as a browser keeps it, with its expiry date when it has one. */
  datatype JarCookie = JarCookie(value: Id, expires: Option<int>)

  /** Section 5.3 of RFC 6265: a later cookie of the same name replaces an earlier one, and one
      whose Max-Age is not positive is removed.  A Max-Age field of 0 is not sent at all. */
  function Receive(jar: Option<JarCookie>, now: int, headers: seq<SetCookie>): Option<JarCookie>
    decreases |headers|
  {
    if headers == [] then jar
    else
      var h := headers[0];
      var next := if h.maxAge < 0 then None
                  else if h.maxAge == 0 then Some(JarCookie(h.value, None))
                  else Some(JarCookie(h.value, Some(now + h.maxAge * SECOND)));
      Receive(next, now, headers[1..])
  }

  /** A cookie is sent unless its expiry date is in the past. */
  function Sent(jar: Option<JarCookie>, now: int): Option<Id> {
    if jar.Some? && (jar.value.expires.None? || now <= jar.value.expires.value) then Some(jar.value.value) else None
  }

  // ---- runs of non-overlapping requests by any number of clients ----

  datatype App = App(now: int, maxAge: int, users: map<string, User>, pool: Pool, jars: map<nat, Option<JarCookie>>)

  datatype Event =
    | LogIn(c: nat, newId: Id, username: string, password: string)
    | LogOut(c: nat, newId: Id)
    | ShowProfile(c: nat, newId: Id)
    | Pass(dt: nat)
    | Sweep

  function Jar(a: App, c: nat): Option<JarCookie> {
    if c in a.jars then a.jars[c] else None
  }

  predicate Possible(a: App, e: Event) {
    e.Pass? || e.Sweep? || Fresh(a.pool, e.newId)
  }

  /** How the server serves a request event that brings the given cookie. */
  function ServePool(p: Pool, now: int, maxAge: int, users: map<string, User>, cookie: Option<Id>, e: Event): Outcome
    requires !e.Pass? && !e.Sweep?
  {
    match e
    case LogIn(_, newId, username, password) => Login(p, now, maxAge, users, cookie, newId, username, password)
    case LogOut(_, newId) => Logout(p, now, maxAge, cookie, newId)
    case ShowProfile(_, newId) => Profile(p, now, maxAge, cookie, newId)
  }

  function Serve(a: App, e: Event): Outcome
    requires !e.Pass? && !e.Sweep?
  {
    ServePool(a.pool, a.now, a.maxAge, a.users, Sent(Jar(a, e.c), a.now), e)
  }

  function Happen(a: App, e: Event): App {
    match e
    case Pass(dt) => a.(now := a.now + dt)
    case Sweep => a.(pool := PoolCleanup(a.pool, a.now))
    case _ =>
      var o := Serve(a, e);
      a.(pool := o.pool, jars := a.jars[e.c := Receive(Jar(a, e.c), a.now, o.headers)])
  }

  predicate AllPossible(a: App, events: seq<Event>)
    decreases |events|
  {
    events == [] || (Possible(a, events[0]) && AllPossible(Happen(a, events[0]), events[1..]))
  }

  function After(a: App, events: seq<Event>): App
    decreases |events|
  {
    if events == [] then a else After(Happen(a, events[0]), events[1..])
  }

  function Start(now: int, maxAge: int, users: map<string, User>): App {
    App(now, maxAge, users, Pool(map[], {}), map[])
  }

  /** The deployed example: the service on its shared objects, the clock and the browsers. */
  class Site {
    const service: AuthService
    var now: int
    var jars: map<nat, Option<JarCookie>>

    constructor (service: AuthService, now: int)
      requires service.manager.Valid() && service.manager.ToPool() == Pool(map[], {})
      ensures Valid() && ToApp() == Start(now, service.manager.maxAge, service.users)
      ensures this.service == service
    {
      this.service := service;
      this.now := now;
      jars := map[];
    }

    ghost predicate Valid()
      reads this, service.manager, service.manager.store, service.manager.objects.Values
    {
      service.manager.Valid()
    }

    ghost function ToApp(): App
      reads this, service.manager, service.manager.store, service.manager.objects.Values
    {
      App(now, service.manager.maxAge, service.users, service.manager.ToPool(), jars)
    }

    /** The routes of the example. */
    method Dispatch(e: Event, cookie: Option<string>) returns (reply: Reply, headers: seq<SetCookie>)
      requires Valid() && Possible(ToApp(), e) && !e.Pass? && !e.Sweep?
      modifies service.manager, service.manager.store, service.manager.objects.Values
      ensures Valid() && fresh(service.manager.objects.Values - old(service.manager.objects.Values))
      ensures Outcome(service.manager.ToPool(), reply, headers)
           == old(ServePool(service.manager.ToPool(), now, service.manager.maxAge, service.users, cookie, e))
    {
      match e {
        case LogIn(_, newId, username, password) =>
          reply, headers := service.SessionLogin(now, cookie, newId, username, password);
        case LogOut(_, newId) =>
          reply, headers := service.ServeLogout(now, cookie, newId);
        case ShowProfile(_, newId) =>
          reply, headers := service.ServeProfile(now, cookie, newId);
      }
    }

    /** One request, served on the shared objects; the browser keeps the cookies it gets. */
    method Request(e: Event) returns (reply: Reply)
      requires Valid() && Possible(ToApp(), e) && !e.Pass? && !e.Sweep?
      modifies `jars, service.manager, service.manager.store, service.manager.objects.Values
      ensures Valid() && ToApp() == Happen(old(ToApp()), e) && reply == Serve(old(ToApp()), e).reply
      ensures fresh(service.manager.objects.Values - old(service.manager.objects.Values))
    {
      ghost var before := ToApp();
      var jar := if e.c in jars then jars[e.c] else None;
      var cookie := Sent(jar, now);
      var headers;
      reply, headers := Dispatch(e, cookie);
      assert Outcome(service.manager.ToPool(), reply, headers) == Serve(before, e);
      Keep(e.c, headers);
    }

    /** The browser of client c keeps the cookies of a response. */
    method Keep(c: nat, headers: seq<SetCookie>)
      requires Valid()
      modifies `jars
      ensures Valid()
      ensures ToApp() == old(ToApp()).(jars := old(jars)[c := Receive(Jar(old(ToApp()), c), now, headers)])
    {
      jars := jars[c := Receive(if c in jars then jars[c] else None, now, headers)];
    }

    method Process(e: Event)
      requires Valid() && Possible(ToApp(), e)
      modifies this, service.manager, service.manager.store, service.manager.objects.Values
      ensures Valid() && ToApp() == Happen(old(ToApp()), e)
      ensures fresh(service.manager.objects.Values - old(service.manager.objects.Values))
    {
      if e.Pass? {
        now := now + e.dt;
      } else if e.Sweep? {
        SweepStore();
      } else {
        var _ := Request(e);
      }
    }

    method SweepStore()
      requires Valid()
      modifies service.manager.store
      ensures Valid() && ToApp() == Happen(old(ToApp()), Sweep)
    {
      service.manager.store.Cleanup(now);
      assert service.manager.store.sessions.Keys == PoolCleanup(old(service.manager.ToPool()), now).stored;
    }

    /** Any run on the shared objects is the run of `App` that the theorems below speak of. */
    method ProcessAll(events: seq<Event>)
      requires Valid() && AllPossible(ToApp(), events)
      modifies this, service.manager, service.manager.store, service.manager.objects.Values
      ensures Valid() && ToApp() == After(old(ToApp()), events)
    {
      var i := 0;
      while i < |events|
        invariant 0 <= i <= |events| && Valid() && AllPossible(ToApp(), events[i..])
        invariant After(ToApp(), events[i..]) == After(old(ToApp()), events)
        invariant fresh(service.manager.objects.Values - old(service.manager.objects.Values))
      {
        assert events[i..][0] == events[i] && events[i..][1..] == events[i + 1..];
        Process(events[i]);
        i := i + 1;
      }
    }
  }

  /** A login is accepted exactly with the password registered for the name; one that is refused
      changes no session and no jar. */
  lemma LogInMeans(a: App, e: Event)
    requires e.LogIn?
    ensures Serve(a, e).reply == if e.username !in a.users then NotFound
                                 else if a.users[e.username].password != e.password then BadPassword
                                 else ProfileOf(a.users[e.username].id, a.users[e.username].username)
    ensures !Serve(a, e).reply.ProfileOf? ==>
              Happen(a, e).pool == a.pool && forall c: nat :: Jar(Happen(a, e), c) == Jar(a, c)
  {
  }

  /** A logout takes the live session that its cookie names out of the store and out of the jar. */
  lemma LogOutMeans(a: App, e: Event, id: Id)
    requires e.LogOut? && Sent(Jar(a, e.c), a.now) == Some(id) && id != ""
    requires id in a.pool.stored && id in a.pool.recs && a.now <= a.pool.recs[id].expiresAt
    ensures Serve(a, e).reply == LoggedOut
    ensures id !in Happen(a, e).pool.stored && Jar(Happen(a, e), e.c) == None
  {
    var cookie := Sent(Jar(a, e.c), a.now);
    var p1 := PoolDestroy(PoolLoad(a.pool, a.now, a.maxAge, cookie, e.newId), cookie);
    assert TailHeaders(p1, a.maxAge, id) == [];
    assert [SetCookie("", -1)] + [] == [SetCookie("", -1)];
    ReceiveOne(Jar(a, e.c), a.now, SetCookie("", -1));
  }

  // ---- what one client should see ----

  /** The client's session: who is logged in on it, and the expiry fixed at its creation. */
  datatype Account = Account(user: Option<User>, expiry: int)

  datatype View = View(now: int, account: Option<Account>)

  predicate Alive(v: View) {
    v.account.Some? && v.now <= v.account.value.expiry
  }

  /** Client c's view after an event; other clients' requests and sweeps do not touch it. */
  function See(v: View, maxAge: int, users: map<string, User>, c: nat, e: Event): View {
    var newcomer := v.(account := Some(Account(None, v.now + maxAge)));
    match e
    case Pass(dt) => v.(now := v.now + dt)
    case Sweep => v
    case LogIn(d, _, username, password) =>
      if d != c || username !in users || users[username].password != password then v
      else
        var v' := if Alive(v) then v else newcomer;
        v'.(account := Some(v'.account.value.(user := Some(users[username]))))
    case LogOut(d, _) =>
      if d != c then v else if Alive(v) then v.(account := None) else newcomer
    case ShowProfile(d, _) =>
      if d != c || Alive(v) then v else newcomer
  }

  function SeeAll(v: View, maxAge: int, users: map<string, User>, c: nat, events: seq<Event>): View
    decreases |events|
  {
    if events == [] then v else SeeAll(See(v, maxAge, users, c, events[0]), maxAge, users, c, events[1..])
  }

  function Answer(v: View): Reply {
    if Alive(v) && v.account.value.user.Some?
    then ProfileOf(v.account.value.user.value.id, v.account.value.user.value.username)
    else NotFound
  }

  // ---- the server shows every client exactly its view ----

  /** The cookie never leaves the jar before the session expires. */
  predicate CookieOutlivesSession(maxAge: int) {
    maxAge < SECOND || maxAge % SECOND == 0
  }

  function ValuesFor(user: Option<User>): map<string, Value> {
    match user
    case None => map[]
    case Some(u) => map["userID" := Text(u.id), "username" := Text(u.username)]
  }

  /** Jars hold minted ids only, no two jars share one, and lives are as created. */
  ghost predicate Separate(a: App) {
    && PoolValid(a.pool, a.maxAge)
    && (forall id <- a.pool.recs :: a.pool.recs[id].createdAt <= a.now)
    && (forall c <- a.jars :: a.jars[c].Some? ==> a.jars[c].value.value in a.pool.recs && a.jars[c].value.value != "")
    && (forall c <- a.jars, d <- a.jars ::
          a.jars[c].Some? && a.jars[d].Some? && a.jars[c].value.value == a.jars[d].value.value ==> c == d)
  }

  /** Client c's jar leads to a live session exactly when its view has a live account, and
      then they agree on the expiry and on who is logged in. */
  ghost predicate Shows(a: App, c: nat, v: View) {
    && v.now == a.now
    && var jar := Jar(a, c);
       && (Alive(v) ==> jar.Some?)
       && (jar.Some? ==>
            var id := jar.value.value;
            && id in a.pool.recs
            && (Hits(a.pool, a.now, id) <==> Alive(v))
            && (Alive(v) ==>
                  && a.pool.recs[id].expiresAt == v.account.value.expiry
                  && a.pool.recs[id].values == ValuesFor(v.account.value.user)
                  && (jar.value.expires.Some? ==> v.account.value.expiry <= jar.value.expires.value)))
  }

  function Loaded(a: App, e: Event): Id
    requires !e.Pass? && !e.Sweep?
  {
    LoadedId(a.pool, a.now, Sent(Jar(a, e.c), a.now), e.newId)
  }

  lemma ReceiveOne(jar: Option<JarCookie>, now: int, h: SetCookie)
    ensures Receive(jar, now, [h])
         == if h.maxAge < 0 then None
            else Some(JarCookie(h.value, if h.maxAge == 0 then None else Some(now + h.maxAge * SECOND)))
  {
    assert Receive(None, now, []) == None;
  }

  lemma ReceiveAfterClear(jar: Option<JarCookie>, now: int, rest: seq<SetCookie>)
    ensures Receive(jar, now, [SetCookie("", -1)] + rest) == Receive(None, now, rest)
  {
    assert ([SetCookie("", -1)] + rest)[1..] == rest;
  }

  /** p differs from the pool of a at most in session `id` and in what is stored under `cookie`. */
  ghost predicate Touched(a: App, p: Pool, id: Id, cookie: Option<Id>) {
    && PoolValid(p, a.maxAge)
    && a.pool.recs.Keys <= p.recs.Keys
    && id in p.recs
    && p.recs[id].createdAt <= a.now
    && (forall x: Id :: x != id ==>
          && (x in p.recs <==> x in a.pool.recs)
          && (x in a.pool.recs ==> p.recs[x] == a.pool.recs[x])
          && (cookie != Some(x) ==> (x in p.stored <==> x in a.pool.stored)))
  }

  lemma TouchedByLoad(a: App, e: Event)
    requires Separate(a) && Possible(a, e) && !e.Pass? && !e.Sweep?
    ensures var cookie := Sent(Jar(a, e.c), a.now);
            && Loaded(a, e) != ""
            && Touched(a, PoolLoad(a.pool, a.now, a.maxAge, cookie, e.newId), Loaded(a, e), cookie)
  {
  }

  lemma TouchedBySet(a: App, p: Pool, id: Id, cookie: Option<Id>, key: string, value: Value)
    requires Touched(a, p, id, cookie)
    ensures Touched(a, PoolSet(p, id, key, value), id, cookie)
  {
  }

  lemma TouchedBySave(a: App, p: Pool, id: Id, cookie: Option<Id>)
    requires Touched(a, p, id, cookie)
    ensures Touched(a, PoolSave(p, id), id, cookie)
    ensures Touched(a, PoolDestroy(p, cookie), id, cookie)
  {
  }

  /** A request touches the session it loads and no other. */
  lemma Footprint(a: App, e: Event)
    requires Separate(a) && Possible(a, e) && !e.Pass? && !e.Sweep?
    ensures Loaded(a, e) != ""
    ensures Serve(a, e).pool == a.pool || Touched(a, Serve(a, e).pool, Loaded(a, e), Sent(Jar(a, e.c), a.now))
  {
    TouchedByLoad(a, e);
    var id, cookie := Loaded(a, e), Sent(Jar(a, e.c), a.now);
    var p := PoolLoad(a.pool, a.now, a.maxAge, cookie, e.newId);
    match e
    case LogIn(_, _, username, password) =>
      var who := Authenticate(a.users, username, password);
      if who.Ok? {
        TouchedBySet(a, p, id, cookie, "userID", Text(who.value.id));
        var p1 := PoolSet(p, id, "userID", Text(who.value.id));
        TouchedBySet(a, p1, id, cookie, "username", Text(who.value.username));
        TouchedBySave(a, Identify(p, id, who.value), id, cookie);
      }
    case LogOut(_, _) =>
      TouchedBySave(a, p, id, cookie);
      TouchedBySave(a, PoolDestroy(p, cookie), id, cookie);
    case ShowProfile(_, _) =>
      TouchedBySave(a, p, id, cookie);
  }

  /** A request leaves its client's jar empty, as it was, or naming the session it loaded. */
  lemma JarFootprint(a: App, e: Event)
    requires Separate(a) && Possible(a, e) && !e.Pass? && !e.Sweep?
    ensures var jar := Jar(Happen(a, e), e.c);
            jar.None? || jar == Jar(a, e.c) ||
            (jar.value.value == Loaded(a, e) && Loaded(a, e) in Serve(a, e).pool.recs)
  {
    var cookie := Sent(Jar(a, e.c), a.now);
    match e
    case LogIn(_, newId, username, password) =>
      if Authenticate(a.users, username, password).Ok? {
        ReceiveOne(Jar(a, e.c), a.now, Serve(a, e).headers[0]);
      }
    case LogOut(_, newId) =>
      var p1 := PoolDestroy(PoolLoad(a.pool, a.now, a.maxAge, cookie, newId), cookie);
      ReceiveAfterClear(Jar(a, e.c), a.now, TailHeaders(p1, a.maxAge, Loaded(a, e)));
      ReceiveOne(None, a.now, SetCookie(Loaded(a, e), WholeSeconds(a.maxAge)));
    case ShowProfile(_, newId) =>
      ReceiveOne(Jar(a, e.c), a.now, SetCookie(Loaded(a, e), WholeSeconds(a.maxAge)));
  }

  lemma SeparateNext(a: App, e: Event)
    requires Separate(a) && Possible(a, e)
    ensures Separate(Happen(a, e))
  {
    if !e.Pass? && !e.Sweep? {
      Footprint(a, e);
      JarFootprint(a, e);
    }
  }

  /** A request by another client. */
  lemma ShowsOther(a: App, c: nat, v: View, e: Event)
    requires Separate(a) && Shows(a, c, v) && Possible(a, e)
    requires !e.Pass? && !e.Sweep? && e.c != c
    ensures Shows(Happen(a, e), c, v)
  {
    Footprint(a, e);
    var jar := Jar(a, c);
    if jar.Some? {
      assert jar.value.value != Loaded(a, e) && Sent(Jar(a, e.c), a.now) != Some(jar.value.value);
    }
  }

  /** The cookie the client sends leads to its session exactly while its view is alive. */
  lemma OwnTarget(a: App, c: nat, v: View)
    requires Shows(a, c, v) && (Jar(a, c).Some? ==> Jar(a, c).value.value != "")
    ensures var cookie := Sent(Jar(a, c), a.now);
            Target(a.pool, a.now, cookie) == if Alive(v) then Some(Jar(a, c).value.value) else None
  {
  }

  lemma WholeSecondsCover(maxAge: int)
    requires CookieOutlivesSession(maxAge)
    ensures WholeSeconds(maxAge) > 0 ==> WholeSeconds(maxAge) * SECOND == maxAge
    ensures WholeSeconds(maxAge) < 0 ==> maxAge < 0
  {
  }

  lemma ShowsLogIn(a: App, c: nat, v: View, e: Event)
    requires CookieOutlivesSession(a.maxAge)
    requires Separate(a) && Shows(a, c, v) && Possible(a, e) && e.LogIn? && e.c == c
    ensures Shows(Happen(a, e), c, See(v, a.maxAge, a.users, c, e))
  {
    OwnTarget(a, c, v);
    WholeSecondsCover(a.maxAge);
    if Authenticate(a.users, e.username, e.password).Ok? {
      ReceiveOne(Jar(a, c), a.now, SetCookie(Loaded(a, e), WholeSeconds(a.maxAge)));
    } else {
      assert Jar(Happen(a, e), c) == Jar(a, c);
    }
  }

  lemma ShowsLogOut(a: App, c: nat, v: View, e: Event)
    requires CookieOutlivesSession(a.maxAge)
    requires Separate(a) && Shows(a, c, v) && Possible(a, e) && e.LogOut? && e.c == c
    ensures Shows(Happen(a, e), c, See(v, a.maxAge, a.users, c, e))
  {
    OwnTarget(a, c, v);
    WholeSecondsCover(a.maxAge);
    var cookie := Sent(Jar(a, c), a.now);
    var p1 := PoolDestroy(PoolLoad(a.pool, a.now, a.maxAge, cookie, e.newId), cookie);
    ReceiveAfterClear(Jar(a, c), a.now, TailHeaders(p1, a.maxAge, Loaded(a, e)));
    ReceiveOne(None, a.now, SetCookie(Loaded(a, e), WholeSeconds(a.maxAge)));
  }

  lemma ShowsShowProfile(a: App, c: nat, v: View, e: Event)
    requires CookieOutlivesSession(a.maxAge)
    requires Separate(a) && Shows(a, c, v) && Possible(a, e) && e.ShowProfile? && e.c == c
    ensures Shows(Happen(a, e), c, See(v, a.maxAge, a.users, c, e))
    ensures Serve(a, e).reply == Answer(v)
  {
    OwnTarget(a, c, v);
    WholeSecondsCover(a.maxAge);
    ReceiveOne(Jar(a, c), a.now, SetCookie(Loaded(a, e), WholeSeconds(a.maxAge)));
  }

  lemma ShowsNext(a: App, c: nat, v: View, e: Event)
    requires CookieOutlivesSession(a.maxAge)
    requires Separate(a) && Shows(a, c, v) && Possible(a, e)
    ensures Shows(Happen(a, e), c, See(v, a.maxAge, a.users, c, e))
  {
    if e.Pass? || e.Sweep? {
    } else if e.c != c {
      ShowsOther(a, c, v, e);
    } else {
      match e
      case LogIn(_, _, _, _) => ShowsLogIn(a, c, v, e);
      case LogOut(_, _) => ShowsLogOut(a, c, v, e);
      case ShowProfile(_, _) => ShowsShowProfile(a, c, v, e);
    }
  }

  lemma {:induction false} ShowsAfter(a: App, c: nat, v: View, events: seq<Event>)
    requires CookieOutlivesSession(a.maxAge)
    requires Separate(a) && Shows(a, c, v) && AllPossible(a, events)
    ensures Separate(After(a, events)) && After(a, events).maxAge == a.maxAge
    ensures Shows(After(a, events), c, SeeAll(v, a.maxAge, a.users, c, events))
    decreases |events|
  {
    if events != [] {
      SeparateNext(a, events[0]);
      ShowsNext(a, c, v, events[0]);
      ShowsAfter(Happen(a, events[0]), c, See(v, a.maxAge, a.users, c, events[0]), events[1..]);
    }
  }

  /** In every run, whatever the other clients do, a profile request is answered with user u
      exactly when the client's own session was last logged in as u, has not been logged out
      and has not passed the expiry fixed at its creation; its type assertions never fail. */
  lemma ProfileShowsTheView(now: int, maxAge: int, users: map<string, User>, events: seq<Event>, c: nat, newId: Id)
    requires CookieOutlivesSession(maxAge)
    requires AllPossible(Start(now, maxAge, users), events + [ShowProfile(c, newId)])
    ensures var a := After(Start(now, maxAge, users), events);
            && Serve(a, ShowProfile(c, newId)).reply
               == Answer(SeeAll(View(now, None), maxAge, users, c, events))
            && Serve(a, ShowProfile(c, newId)).reply != Crash
  {
    var a := Start(now, maxAge, users);
    AllPossibleSplit(a, events, ShowProfile(c, newId));
    ShowsAfter(a, c, View(now, None), events);
    ShowsShowProfile(After(a, events), c, SeeAll(View(now, None), maxAge, users, c, events), ShowProfile(c, newId));
  }

  /** The event is a login by c, with the right password, as the user of that id and name. */
  predicate LogsIn(users: map<string, User>, c: nat, e: Event, id: string, username: string) {
    && e.LogIn? && e.c == c && e.username in users && users[e.username].password == e.password
    && users[e.username].id == id && users[e.username].username == username
  }

  lemma {:induction false} AccountsComeFromLogIns(v: View, maxAge: int, users: map<string, User>, c: nat,
                                                  events: seq<Event>)
    ensures var w := SeeAll(v, maxAge, users, c, events);
            w.account.Some? && w.account.value.user.Some? ==>
              var u := w.account.value.user.value;
              || (v.account.Some? && v.account.value.user == Some(u))
              || exists e <- events :: LogsIn(users, c, e, u.id, u.username)
    decreases |events|
  {
    if events != [] {
      var v1, first, rest := See(v, maxAge, users, c, events[0]), events[0], events[1..];
      AccountsComeFromLogIns(v1, maxAge, users, c, rest);
      assert forall e :: e in events <==> e == first || e in rest;
      if v1.account.Some? && v1.account.value.user.Some? {
        var u := v1.account.value.user.value;
        assert (v.account.Some? && v.account.value.user == Some(u)) || LogsIn(users, c, first, u.id, u.username);
      }
    }
  }

  /** No client is ever shown a user whose password it did not give. */
  lemma ProfilesComeFromLogIns(now: int, maxAge: int, users: map<string, User>, events: seq<Event>, c: nat, newId: Id)
    requires CookieOutlivesSession(maxAge)
    requires AllPossible(Start(now, maxAge, users), events + [ShowProfile(c, newId)])
    ensures var reply := Serve(After(Start(now, maxAge, users), events), ShowProfile(c, newId)).reply;
            reply.ProfileOf? ==> exists e <- events :: LogsIn(users, c, e, reply.id, reply.username)
  {
    ProfileShowsTheView(now, maxAge, users, events, c, newId);
    AccountsComeFromLogIns(View(now, None), maxAge, users, c, events);
  }

  lemma {:induction false} AllPossibleSplit(a: App, events: seq<Event>, last: Event)
    requires AllPossible(a, events + [last])
    ensures AllPossible(a, events) && Possible(After(a, events), last)
    decreases |events|
  {
    if events != [] {
      assert (events + [last])[1..] == events[1..] + [last];
      AllPossibleSplit(Happen(a, events[0]), events[1..], last);
    }
  }

  /** The condition on maxAge is exact: for any other one, a client that logs in and comes
      back while its session is alive is not recognised, its cookie being gone by then. */
  lemma FractionalMaxAgeForgets(now: int, maxAge: int, users: map<string, User>, c: nat, username: string,
                                newId: Id, otherId: Id)
    requires !CookieOutlivesSession(maxAge)
    requires username in users && newId != otherId && newId != "" && otherId != ""
    ensures var events := [LogIn(c, newId, username, users[username].password), Pass(maxAge)];
            var a := After(Start(now, maxAge, users), events);
            && AllPossible(Start(now, maxAge, users), events) && Possible(a, ShowProfile(c, otherId))
            && Answer(SeeAll(View(now, None), maxAge, users, c, events)).ProfileOf?
            && Serve(a, ShowProfile(c, otherId)).reply == NotFound
  {
    var e := LogIn(c, newId, username, users[username].password);
    var a0 := Start(now, maxAge, users);
    var a1 := Happen(a0, e);
    var a2 := Happen(a1, Pass(maxAge));
    ReceiveOne(None, now, SetCookie(newId, WholeSeconds(maxAge)));
    assert [e, Pass(maxAge)][1..] == [Pass(maxAge)] && [Pass(maxAge)][1..] == [];
    assert After(a2, []) == a2 && After(a1, [Pass(maxAge)]) == a2;
    var v0 := View(now, None);
    var v1 := See(v0, maxAge, users, c, e);
    var v2 := See(v1, maxAge, users, c, Pass(maxAge));
    assert SeeAll(v2, maxAge, users, c, []) == v2 && SeeAll(v1, maxAge, users, c, [Pass(maxAge)]) == v2;
  }
}
