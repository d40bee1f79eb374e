/** The session routes of the auth example with requests of different clients interleaved step
    by step: load, each write, save, destroy and answer are separate, time passes and the cleanup
    fires in between.  Each client sends its own requests one after another, following the cookies
    it was given.

    Every client is shown exactly its own history, as if it were alone with the clock. */
module AuthInterleaving {
  import opened Basics
  import opened SessionSpec
  import opened Sessions
  import opened AuthFlow

  /** How far a request has come; Named is between the two writes of a login. */
  datatype Stage = Opened | Named | Written | Answered

  /** A request being served: its session (none for a refused login), and its answer so far. */
  datatype Service = Service(e: Event, stage: Stage, id: Id, headers: seq<SetCookie>, reply: Option<Reply>)

  /** The session machine, with one flight per client at most, the browsers, and the answers
      each client has received. */
  datatype Net = Net(
    m: Machine,
    users: map<string, User>,
    jars: map<nat, Option<JarCookie>>,
    serving: map<nat, Service>,
    replies: map<nat, seq<Reply>>)

  datatype Act = Arrive(e: Event) | Proceed(c: nat) | Wait(dt: nat) | Clean

  function ToApp(a: Net): App {
    App(a.m.now, a.m.maxAge, a.users, a.m.pool, a.jars)
  }

  function Replies(a: Net, c: nat): seq<Reply> {
    if c in a.replies then a.replies[c] else []
  }

  function Who(a: Net, e: Event): Result<User, Reply>
    requires e.LogIn?
  {
    Authenticate(a.users, e.username, e.password)
  }

  predicate Refused(a: Net, e: Event) {
    e.LogIn? && Who(a, e).Err?
  }

  predicate Can(a: Net, act: Act) {
    match act
    case Arrive(e) =>
      && !e.Pass? && !e.Sweep? && e.c !in a.serving && e.c !in a.m.flights && Fresh(a.m.pool, e.newId)
    case Proceed(c) =>
      && c in a.serving
      && (if c in a.m.flights then a.m.flights[c].id in a.m.pool.recs else a.serving[c].stage.Answered?)
    case _ => true
  }

  /** The step of the session machine that an act takes, if it takes one. */
  function MachineStep(a: Net, act: Act): (st: Option<Step>)
    requires Can(a, act)
    ensures st.Some? ==> Enabled(a.m, st.value)
  {
    match act
    case Arrive(e) =>
      if Refused(a, e) then None else Some(Load(e.c, Sent(Jar(ToApp(a), e.c), a.m.now), e.newId))
    case Proceed(c) =>
      var s := a.serving[c];
      (match s.stage
       case Opened =>
         if s.e.LogIn? && Who(a, s.e).Ok? then Some(SetValue(c, "userID", Text(Who(a, s.e).value.id)))
         else if s.e.LogOut? then Some(Destroy(c))
         else None
       case Named =>
         if s.e.LogIn? && Who(a, s.e).Ok? then Some(SetValue(c, "username", Text(Who(a, s.e).value.username)))
         else None
       case Written => if s.e.LogIn? then Some(Save(c)) else Some(Finish(c))
       case Answered => if c in a.m.flights then Some(End(c)) else None)
    case Wait(dt) => Some(Tick(dt))
    case Clean => Some(Cleanup)
  }

  function MachineNext(a: Net, act: Act): Machine
    requires Can(a, act)
  {
    var st := MachineStep(a, act);
    if st.Some? then Next(a.m, st.value) else a.m
  }

  /** The service after one step short of its answer. */
  function Advance(a: Net, c: nat): Service
    requires Can(a, Proceed(c)) && !a.serving[c].stage.Answered?
  {
    var s, id, p := a.serving[c], a.m.flights[c].id, a.m.pool;
    match s.stage
    case Opened =>
      if s.e.LogIn? then s.(stage := Named)
      else if s.e.LogOut? then s.(stage := Written, headers := [SetCookie("", -1)], reply := Some(LoggedOut))
      else s.(stage := Written, reply := Some(ProfileReply(p.recs[id])))
    case Named => s.(stage := Written)
    case Written =>
      if s.e.LogIn? && Who(a, s.e).Ok? then
        var u := Who(a, s.e).value;
        s.(stage := Answered, headers := [SetCookie(id, WholeSeconds(a.m.maxAge))],
           reply := Some(ProfileOf(u.id, u.username)))
      else s.(stage := Answered, headers := s.headers + TailHeaders(p, a.m.maxAge, id))
  }

  function Perform(a: Net, act: Act): (a': Net)
    requires Can(a, act)
    ensures a'.m.maxAge == a.m.maxAge && a'.users == a.users
  {
    var m := MachineNext(a, act);
    match act
    case Arrive(e) =>
      var cookie := Sent(Jar(ToApp(a), e.c), a.m.now);
      var s := if Refused(a, e) then Service(e, Answered, "", [], Some(Who(a, e).error))
               else Service(e, Opened, LoadedId(a.m.pool, a.m.now, cookie, e.newId), [], None);
      a.(m := m, serving := a.serving[e.c := s])
    case Proceed(c) =>
      var s := a.serving[c];
      if s.stage.Answered? then
        a.(m := m, serving := a.serving - {c},
           jars := a.jars[c := Receive(Jar(ToApp(a), c), a.m.now, s.headers)],
           replies := if s.reply.Some? then a.replies[c := Replies(a, c) + [s.reply.value]] else a.replies)
      else a.(m := m, serving := a.serving[c := Advance(a, c)])
    case _ => a.(m := m)
  }

  predicate AllCan(a: Net, acts: seq<Act>)
    decreases |acts|
  {
    acts == [] || (Can(a, acts[0]) && AllCan(Perform(a, acts[0]), acts[1..]))
  }

  function PerformAll(a: Net, acts: seq<Act>): Net
    requires AllCan(a, acts)
    decreases |acts|
  {
    if acts == [] then a else PerformAll(Perform(a, acts[0]), acts[1..])
  }

  function Opening(now: int, maxAge: int, users: map<string, User>): Net {
    Net(Init(now, maxAge), users, map[], map[], map[])
  }

  // ---- what one client should see ----

  /** A client's own history: its view and the answers due to it. */
  datatype History = History(view: View, replies: seq<Reply>)

  function Due(h: History, users: map<string, User>, e: Event): Reply
    requires !e.Pass? && !e.Sweep?
  {
    match e
    case LogIn(_, _, username, password) =>
      if username !in users then NotFound
      else if users[username].password != password then BadPassword
      else ProfileOf(users[username].id, users[username].username)
    case LogOut(_, _) => LoggedOut
    case ShowProfile(_, _) => Answer(h.view)
  }

  /** Only the client's own requests, at the moment each arrives, and the clock matter. */
  function Observe(h: History, maxAge: int, users: map<string, User>, c: nat, act: Act): History {
    match act
    case Arrive(e) =>
      if e.Pass? || e.Sweep? || e.c != c then h
      else History(See(h.view, maxAge, users, c, e), h.replies + [Due(h, users, e)])
    case Wait(dt) => h.(view := h.view.(now := h.view.now + dt))
    case _ => h
  }

  function ObserveAll(h: History, maxAge: int, users: map<string, User>, c: nat, acts: seq<Act>): History
    decreases |acts|
  {
    if acts == [] then h else ObserveAll(Observe(h, maxAge, users, c, acts[0]), maxAge, users, c, acts[1..])
  }

  // ---- clients do not meet ----

  /** Every id belongs to the client whose request minted it; jars, requests and the cookies they
      carry name the client's own ids only. */
  ghost predicate Owned(a: Net, owner: map<Id, nat>) {
    && Valid(a.m) && "" !in a.m.pool.recs && owner.Keys == a.m.pool.recs.Keys
    && (forall c <- a.jars :: a.jars[c].Some? ==> Owns(owner, c, a.jars[c].value.value))
    && (forall c <- a.serving :: OwnedService(owner, c, a.serving[c]))
    && (forall c <- a.m.flights :: c in a.serving && OwnedFlight(owner, c, a.m.flights[c], a.serving[c].id))
  }

  ghost predicate Owns(owner: map<Id, nat>, c: nat, id: Id) {
    id in owner && owner[id] == c
  }

  ghost predicate OwnedService(owner: map<Id, nat>, c: nat, s: Service) {
    && (s.id != "" ==> Owns(owner, c, s.id))
    && forall h <- s.headers :: h.maxAge < 0 || (h.value == s.id && s.id != "")
  }

  ghost predicate OwnedFlight(owner: map<Id, nat>, c: nat, f: Flight, id: Id) {
    && f.id == id && Owns(owner, c, f.id)
    && (f.cookie.Some? ==> Owns(owner, c, f.cookie.value))
  }

  function NextOwner(a: Net, owner: map<Id, nat>, act: Act): map<Id, nat> {
    if act.Arrive? && !act.e.Pass? && !act.e.Sweep? && !Refused(a, act.e)
       && Target(a.m.pool, a.m.now, Sent(Jar(ToApp(a), act.e.c), a.m.now)).None?
    then owner[act.e.newId := act.e.c]
    else owner
  }

  lemma {:induction false} ReceivedIsOffered(jar: Option<JarCookie>, now: int, headers: seq<SetCookie>, id: Id)
    requires forall h <- headers :: h.maxAge < 0 || (h.value == id && id != "")
    ensures var next := Receive(jar, now, headers);
            next.None? || next == jar || (next.value.value == id && id != "")
    decreases |headers|
  {
    if headers != [] {
      assert headers[0] in headers;
      var h := headers[0];
      var next := if h.maxAge < 0 then None
                  else if h.maxAge == 0 then Some(JarCookie(h.value, None))
                  else Some(JarCookie(h.value, Some(now + h.maxAge * SECOND)));
      ReceivedIsOffered(next, now, headers[1..], id);
    }
  }

  /** The pool changes at most in what client c owns, and mints for c. */
  ghost predicate Confined(owner: map<Id, nat>, p: Pool, p': Pool, c: nat) {
    forall id: Id :: id in owner && owner[id] != c ==>
      && id in p.recs && id in p'.recs && p'.recs[id] == p.recs[id]
      && (id in p'.stored <==> id in p.stored)
  }

  /** A load by client c that was sent one of c's own cookies or none. */
  lemma LoadConfined(m: Machine, owner: map<Id, nat>, c: nat, cookie: Option<Id>, newId: Id)
    requires Valid(m) && Enabled(m, Load(c, cookie, newId)) && owner.Keys == m.pool.recs.Keys
    requires cookie.Some? && cookie.value in owner ==> owner[cookie.value] == c
    ensures var m', id := Next(m, Load(c, cookie, newId)), LoadedId(m.pool, m.now, cookie, newId);
            && Confined(owner, m.pool, m'.pool, c)
            && m'.pool.recs.Keys == m.pool.recs.Keys + {id}
            && (id == newId || cookie == Some(id))
  {
  }

  /** Any other step of client c's flight. */
  lemma StepConfined(m: Machine, owner: map<Id, nat>, c: nat, st: Step)
    requires Valid(m) && Enabled(m, st) && owner.Keys == m.pool.recs.Keys
    requires !st.Load? && !st.Tick? && !st.Cleanup? && st.r == c && owner[m.flights[c].id] == c
    requires var cookie := m.flights[c].cookie; cookie.Some? && cookie.value in owner ==> owner[cookie.value] == c
    ensures var m' := Next(m, st);
            && Confined(owner, m.pool, m'.pool, c)
            && m'.pool.recs.Keys == m.pool.recs.Keys
            && (m'.flights == m.flights || m'.flights == m.flights - {c})
  {
  }

  lemma NextOwnerExtends(a: Net, owner: map<Id, nat>, e: Event)
    requires Owned(a, owner) && Can(a, Arrive(e)) && !Refused(a, e)
    ensures var owner' := NextOwner(a, owner, Arrive(e));
            var cookie := Sent(Jar(ToApp(a), e.c), a.m.now);
            && (cookie.Some? ==> Owns(owner, e.c, cookie.value))
            && Owns(owner', e.c, LoadedId(a.m.pool, a.m.now, cookie, e.newId))
            && owner'.Keys == owner.Keys + {LoadedId(a.m.pool, a.m.now, cookie, e.newId)}
            && forall id <- owner :: id in owner' && owner'[id] == owner[id]
  {
  }

  lemma OwnedAccepted(a: Net, owner: map<Id, nat>, e: Event)
    requires Owned(a, owner) && Can(a, Arrive(e)) && !Refused(a, e)
    ensures Owned(Perform(a, Arrive(e)), NextOwner(a, owner, Arrive(e)))
  {
    var cookie := Sent(Jar(ToApp(a), e.c), a.m.now);
    NextOwnerExtends(a, owner, e);
    NextValid(a.m, Load(e.c, cookie, e.newId));
    LoadConfined(a.m, owner, e.c, cookie, e.newId);
    var a', owner' := Perform(a, Arrive(e)), NextOwner(a, owner, Arrive(e));
    forall c | c in a'.serving
      ensures OwnedService(owner', c, a'.serving[c])
    {
      if c != e.c {
        assert OwnedService(owner, c, a.serving[c]);
      }
    }
    forall c | c in a'.m.flights
      ensures c in a'.serving && OwnedFlight(owner', c, a'.m.flights[c], a'.serving[c].id)
    {
      if c != e.c {
        assert OwnedFlight(owner, c, a.m.flights[c], a.serving[c].id);
      }
    }
  }

  lemma OwnedArrive(a: Net, owner: map<Id, nat>, e: Event)
    requires Owned(a, owner) && Can(a, Arrive(e))
    ensures Owned(Perform(a, Arrive(e)), NextOwner(a, owner, Arrive(e)))
  {
    if Refused(a, e) {
      var a' := Perform(a, Arrive(e));
      forall d | d in a'.m.flights
        ensures d in a'.serving && OwnedFlight(owner, d, a'.m.flights[d], a'.serving[d].id)
      {
        assert OwnedFlight(owner, d, a.m.flights[d], a.serving[d].id);
      }
    } else {
      OwnedAccepted(a, owner, e);
    }
  }

  lemma OwnedAnswer(a: Net, owner: map<Id, nat>, c: nat)
    requires Owned(a, owner) && Can(a, Proceed(c)) && a.serving[c].stage.Answered?
    ensures Owned(Perform(a, Proceed(c)), owner)
    ensures Perform(a, Proceed(c)).m.pool == a.m.pool
  {
    var s := a.serving[c];
    assert OwnedService(owner, c, s);
    ReceivedIsOffered(Jar(ToApp(a), c), a.m.now, s.headers, s.id);
    var a' := Perform(a, Proceed(c));
    forall d | d in a'.m.flights
      ensures d in a'.serving && OwnedFlight(owner, d, a'.m.flights[d], a'.serving[d].id)
    {
      assert OwnedFlight(owner, d, a.m.flights[d], a.serving[d].id);
    }
  }

  lemma ServiceAdvance(a: Net, owner: map<Id, nat>, c: nat)
    requires Owned(a, owner) && Can(a, Proceed(c)) && !a.serving[c].stage.Answered?
    ensures Advance(a, c).id == a.serving[c].id && OwnedService(owner, c, Advance(a, c))
  {
    assert OwnedFlight(owner, c, a.m.flights[c], a.serving[c].id) && OwnedService(owner, c, a.serving[c]);
  }

  lemma OwnedAdvance(a: Net, owner: map<Id, nat>, c: nat)
    requires Owned(a, owner) && Can(a, Proceed(c)) && !a.serving[c].stage.Answered?
    ensures Owned(Perform(a, Proceed(c)), owner)
  {
    var st := MachineStep(a, Proceed(c));
    assert OwnedFlight(owner, c, a.m.flights[c], a.serving[c].id);
    ServiceAdvance(a, owner, c);
    if st.Some? {
      NextValid(a.m, st.value);
      StepConfined(a.m, owner, c, st.value);
    }
    var a' := Perform(a, Proceed(c));
    forall d | d in a'.m.flights
      ensures d in a'.serving && OwnedFlight(owner, d, a'.m.flights[d], a'.serving[d].id)
    {
      assert OwnedFlight(owner, d, a.m.flights[d], a.serving[d].id);
    }
  }

  // ---- one client, while the others and the clock move ----

  /** The session has the expiry and the user of the view's account. */
  ghost predicate Carries(a: Net, v: View, id: Id) {
    && v.account.Some? && id in a.m.pool.recs
    && a.m.pool.recs[id].expiresAt == v.account.value.expiry
    && a.m.pool.recs[id].values == ValuesFor(v.account.value.user)
  }

  /** And it is in the store while it is alive. */
  ghost predicate Kept(a: Net, v: View, id: Id) {
    Carries(a, v, id) && (Alive(v) ==> id in a.m.pool.stored)
  }

  function Renewed(a: Net, id: Id): SetCookie {
    SetCookie(id, WholeSeconds(a.m.maxAge))
  }

  ghost predicate PendingLogIn(a: Net, c: nat, v: View, due: Reply, s: Service)
    requires s.e.LogIn?
  {
    match Who(a, s.e)
    case Err(reply) =>
      s.stage.Answered? && s.headers == [] && s.reply == Some(reply) && due == reply && Shows(ToApp(a), c, v)
    case Ok(u) =>
      && due == ProfileOf(u.id, u.username) && s.id in a.m.pool.recs
      && var rec := a.m.pool.recs[s.id];
         && v.account == Some(Account(Some(u), rec.expiresAt))
         && rec.values.Keys <= {"userID", "username"}
         && match s.stage
            case Opened => true
            case Named => "userID" in rec.values && rec.values["userID"] == Text(u.id)
            case Written => Carries(a, v, s.id)
            case Answered => Kept(a, v, s.id) && s.headers == [Renewed(a, s.id)] && s.reply == Some(due)
  }

  ghost predicate PendingLogOut(a: Net, c: nat, v: View, due: Reply, s: Service) {
    var cleared := if s.stage.Opened? then [] else [SetCookie("", -1)];
    && due == LoggedOut && s.id in a.m.pool.recs && !s.stage.Named? && (!s.stage.Opened? ==> s.reply == Some(due))
    && var rec := a.m.pool.recs[s.id];
       if v.account.None? then !rec.isNew && !rec.modified && s.headers == cleared
       else
         && rec.isNew && Carries(a, v, s.id)
         && (s.stage.Answered? ==> Kept(a, v, s.id))
         && s.headers == cleared + if s.stage.Answered? then [Renewed(a, s.id)] else []
  }

  ghost predicate PendingProfile(a: Net, c: nat, v: View, due: Reply, s: Service) {
    && Carries(a, v, s.id) && !s.stage.Named? && (!s.stage.Opened? ==> s.reply == Some(due))
    && var rec, user := a.m.pool.recs[s.id], v.account.value.user;
       && due == (if user.Some? then ProfileOf(user.value.id, user.value.username) else NotFound)
       && if rec.isNew then
            && user == None
            && (s.stage.Answered? ==> Kept(a, v, s.id))
            && s.headers == if s.stage.Answered? then [Renewed(a, s.id)] else []
          else !rec.modified && s.headers == [] && Shows(ToApp(a), c, v)
  }

  /** How far the server is with the client's request, compared with what the request will have
      done to its view. */
  ghost predicate Pending(a: Net, c: nat, v: View, due: Reply, s: Service) {
    && (!s.stage.Answered? ==> c in a.m.flights && a.m.flights[c].id == s.id)
    && (s.reply.Some? ==> s.reply.value == due)
    && match s.e
       case LogIn(_, _, _, _) => PendingLogIn(a, c, v, due, s)
       case LogOut(_, _) => PendingLogOut(a, c, v, due, s)
       case ShowProfile(_, _) => PendingProfile(a, c, v, due, s)
       case _ => false
  }

  /** The client's part of the server matches the client's history. */
  ghost predicate Tracks(a: Net, c: nat, h: History) {
    && h.view.now == a.m.now
    && if c in a.serving then
         var n := |h.replies| - 1;
         && n >= 0 && h.replies[..n] == Replies(a, c)
         && Pending(a, c, h.view, h.replies[n], a.serving[c])
       else h.replies == Replies(a, c) && Shows(ToApp(a), c, h.view)
  }

  /** Nothing of client c has changed but the time, and perhaps expired entries of the store. */
  ghost predicate SameFor(a: Net, a': Net, owner: map<Id, nat>, c: nat) {
    && a'.m.now >= a.m.now && a'.m.maxAge == a.m.maxAge && a'.users == a.users
    && Jar(ToApp(a'), c) == Jar(ToApp(a), c) && Replies(a', c) == Replies(a, c)
    && (c in a'.serving <==> c in a.serving) && (c in a.serving ==> a'.serving[c] == a.serving[c])
    && (c in a.m.flights ==> c in a'.m.flights && a'.m.flights[c] == a.m.flights[c])
    && forall id <- owner :: owner[id] == c ==>
         && id in a.m.pool.recs && id in a'.m.pool.recs && a'.m.pool.recs[id] == a.m.pool.recs[id]
         && (a'.m.now <= a.m.pool.recs[id].expiresAt ==> (id in a'.m.pool.stored <==> id in a.m.pool.stored))
  }

  lemma ShowsStays(a: Net, a': Net, owner: map<Id, nat>, c: nat, v: View)
    requires Owned(a, owner) && SameFor(a, a', owner, c) && Shows(ToApp(a), c, v)
    ensures Shows(ToApp(a'), c, v.(now := a'.m.now))
  {
    var jar := Jar(ToApp(a), c);
    if jar.Some? {
      assert Owns(owner, c, jar.value.value);
    }
  }

  lemma TracksStays(a: Net, a': Net, owner: map<Id, nat>, c: nat, h: History)
    requires Owned(a, owner) && SameFor(a, a', owner, c) && Tracks(a, c, h)
    ensures Tracks(a', c, h.(view := h.view.(now := a'.m.now)))
  {
    var v' := h.view.(now := a'.m.now);
    if c in a.serving {
      var s := a.serving[c];
      assert OwnedService(owner, c, s);
      if Shows(ToApp(a), c, h.view) {
        ShowsStays(a, a', owner, c, h.view);
      }
    } else {
      ShowsStays(a, a', owner, c, h.view);
    }
  }

  /** The act is client c's alone. */
  ghost predicate OnlyOf(a: Net, a': Net, owner: map<Id, nat>, c: nat) {
    && Confined(owner, a.m.pool, a'.m.pool, c)
    && a'.m.now == a.m.now && a'.m.maxAge == a.m.maxAge && a'.users == a.users
    && a'.m.flights - {c} == a.m.flights - {c} && a'.serving - {c} == a.serving - {c}
    && a'.jars - {c} == a.jars - {c} && a'.replies - {c} == a.replies - {c}
  }

  lemma ArriveOnly(a: Net, owner: map<Id, nat>, e: Event)
    requires Owned(a, owner) && Can(a, Arrive(e))
    ensures OnlyOf(a, Perform(a, Arrive(e)), owner, e.c)
  {
    if !Refused(a, e) {
      NextOwnerExtends(a, owner, e);
      LoadConfined(a.m, owner, e.c, Sent(Jar(ToApp(a), e.c), a.m.now), e.newId);
    }
  }

  lemma ProceedOnly(a: Net, owner: map<Id, nat>, c: nat)
    requires Owned(a, owner) && Can(a, Proceed(c))
    ensures OnlyOf(a, Perform(a, Proceed(c)), owner, c)
  {
    MachineConfined(a, owner, c);
    if a.serving[c].stage.Answered? {
      assert (a.serving - {c}) - {c} == a.serving - {c};
    }
  }

  lemma MachineConfined(a: Net, owner: map<Id, nat>, c: nat)
    requires Owned(a, owner) && Can(a, Proceed(c))
    ensures var m := MachineNext(a, Proceed(c));
            && Confined(owner, a.m.pool, m.pool, c) && m.flights - {c} == a.m.flights - {c}
            && m.now == a.m.now && m.maxAge == a.m.maxAge
  {
    var st := MachineStep(a, Proceed(c));
    if st.Some? {
      assert OwnedFlight(owner, c, a.m.flights[c], a.serving[c].id);
      StepConfined(a.m, owner, c, st.value);
    }
  }

  lemma OnlyOfOther(a: Net, a': Net, owner: map<Id, nat>, c: nat, d: nat)
    requires Owned(a, owner) && OnlyOf(a, a', owner, d) && c != d
    ensures SameFor(a, a', owner, c)
  {
    assert Jar(ToApp(a'), c) == Jar(ToApp(a), c) by {
      assert c in a.jars <==> c in a.jars - {d};
      assert c in a'.jars <==> c in a'.jars - {d};
    }
    assert Replies(a', c) == Replies(a, c) by {
      assert c in a.replies <==> c in a.replies - {d};
      assert c in a'.replies <==> c in a'.replies - {d};
    }
    assert c in a.serving <==> c in a.serving - {d};
    assert c in a'.serving <==> c in a'.serving - {d};
    assert c in a.m.flights <==> c in a.m.flights - {d};
    assert c in a'.m.flights <==> c in a'.m.flights - {d};
  }

  /** No request of another client, no wait and no cleanup touches what client c has. */
  lemma OthersDoNotMatter(a: Net, owner: map<Id, nat>, c: nat, act: Act)
    requires Owned(a, owner) && Can(a, act)
    requires (act.Arrive? ==> act.e.c != c) && (act.Proceed? ==> act.c != c)
    ensures SameFor(a, Perform(a, act), owner, c)
  {
    match act
    case Arrive(e) =>
      ArriveOnly(a, owner, e);
      OnlyOfOther(a, Perform(a, act), owner, c, e.c);
    case Proceed(d) =>
      ProceedOnly(a, owner, d);
      OnlyOfOther(a, Perform(a, act), owner, c, d);
    case _ =>
  }

  lemma OwnedNext(a: Net, owner: map<Id, nat>, act: Act)
    requires Owned(a, owner) && Can(a, act)
    ensures Owned(Perform(a, act), NextOwner(a, owner, act))
  {
    match act
    case Arrive(e) => OwnedArrive(a, owner, e);
    case Proceed(d) =>
      if a.serving[d].stage.Answered? {
        OwnedAnswer(a, owner, d);
      } else {
        OwnedAdvance(a, owner, d);
      }
    case Wait(dt) => NextValid(a.m, Tick(dt));
    case Clean => NextValid(a.m, Cleanup);
  }

  // ---- the client's own acts ----

  /** What the client's cookie leads to as its request arrives. */
  lemma ArrivesAt(a: Net, owner: map<Id, nat>, c: nat, v: View, e: Event)
    requires Owned(a, owner) && Can(a, Arrive(e)) && e.c == c && Shows(ToApp(a), c, v)
    ensures var cookie := Sent(Jar(ToApp(a), c), a.m.now);
            Target(a.m.pool, a.m.now, cookie) == if Alive(v) then Some(Jar(ToApp(a), c).value.value) else None
  {
    if Jar(ToApp(a), c).Some? {
      assert Owns(owner, c, Jar(ToApp(a), c).value.value);
    }
    OwnTarget(ToApp(a), c, v);
  }

  lemma LogInArrives(a: Net, owner: map<Id, nat>, c: nat, h: History, e: Event)
    requires Owned(a, owner) && Can(a, Arrive(e)) && e.c == c && Shows(ToApp(a), c, h.view) && e.LogIn?
    ensures var a' := Perform(a, Arrive(e));
            Pending(a', c, See(h.view, a.m.maxAge, a.users, c, e), Due(h, a.users, e), a'.serving[c])
  {
    ArrivesAt(a, owner, c, h.view, e);
  }

  lemma LogOutArrives(a: Net, owner: map<Id, nat>, c: nat, h: History, e: Event)
    requires Owned(a, owner) && Can(a, Arrive(e)) && e.c == c && Shows(ToApp(a), c, h.view) && e.LogOut?
    ensures var a' := Perform(a, Arrive(e));
            Pending(a', c, See(h.view, a.m.maxAge, a.users, c, e), Due(h, a.users, e), a'.serving[c])
  {
    ArrivesAt(a, owner, c, h.view, e);
  }

  lemma ProfileArrives(a: Net, owner: map<Id, nat>, c: nat, h: History, e: Event)
    requires Owned(a, owner) && Can(a, Arrive(e)) && e.c == c && Shows(ToApp(a), c, h.view) && e.ShowProfile?
    ensures var a' := Perform(a, Arrive(e));
            Pending(a', c, See(h.view, a.m.maxAge, a.users, c, e), Due(h, a.users, e), a'.serving[c])
  {
    ArrivesAt(a, owner, c, h.view, e);
  }

  lemma TracksArrive(a: Net, owner: map<Id, nat>, c: nat, h: History, e: Event)
    requires Owned(a, owner) && Can(a, Arrive(e)) && e.c == c && Tracks(a, c, h)
    ensures Tracks(Perform(a, Arrive(e)), c, Observe(h, a.m.maxAge, a.users, c, Arrive(e)))
  {
    match e {
      case LogIn(_, _, _, _) => LogInArrives(a, owner, c, h, e);
      case LogOut(_, _) => LogOutArrives(a, owner, c, h, e);
      case ShowProfile(_, _) => ProfileArrives(a, owner, c, h, e);
    }
    TracksPending(Perform(a, Arrive(e)), c, h.replies, See(h.view, a.m.maxAge, a.users, c, e), Due(h, a.users, e));
  }

  lemma TracksPending(a: Net, c: nat, replies: seq<Reply>, v: View, due: Reply)
    requires v.now == a.m.now && Replies(a, c) == replies
    requires c in a.serving && Pending(a, c, v, due, a.serving[c])
    ensures Tracks(a, c, History(v, replies + [due]))
  {
    assert (replies + [due])[..|replies|] == replies;
  }

  /** What a pending request leaves its client with when it is answered. */
  ghost predicate Leaves(a: Net, c: nat, v: View, s: Service) {
    || (s.headers == [] && Shows(ToApp(a), c, v))
    || (s.headers == [SetCookie("", -1)] && v.account.None?)
    || (Kept(a, v, s.id) && s.headers == [] + [Renewed(a, s.id)])
    || (Kept(a, v, s.id) && s.headers == [SetCookie("", -1)] + [Renewed(a, s.id)])
  }

  lemma PendingLeaves(a: Net, c: nat, v: View, due: Reply, s: Service)
    requires Pending(a, c, v, due, s) && s.stage.Answered?
    ensures Leaves(a, c, v, s) && s.reply == Some(due)
  {
    assert [] + [Renewed(a, s.id)] == [Renewed(a, s.id)];
  }

  lemma TracksAnswer(a: Net, owner: map<Id, nat>, c: nat, h: History)
    requires CookieOutlivesSession(a.m.maxAge)
    requires Owned(a, owner) && Can(a, Proceed(c)) && Tracks(a, c, h) && a.serving[c].stage.Answered?
    ensures Tracks(Perform(a, Proceed(c)), c, h)
  {
    var a', s, n := Perform(a, Proceed(c)), a.serving[c], |h.replies| - 1;
    assert h.replies == h.replies[..n] + [h.replies[n]];
    PendingLeaves(a, c, h.view, h.replies[n], s);
    OwnedAnswer(a, owner, c);
    LeavesShows(a, a', c, h.view, s);
  }

  lemma LeavesShows(a: Net, a': Net, c: nat, v: View, s: Service)
    requires CookieOutlivesSession(a.m.maxAge) && Valid(a.m) && v.now == a.m.now && Leaves(a, c, v, s)
    requires a'.m.pool == a.m.pool && a'.m.now == a.m.now && a'.m.maxAge == a.m.maxAge
    requires Jar(ToApp(a'), c) == Receive(Jar(ToApp(a), c), a.m.now, s.headers)
    ensures Shows(ToApp(a'), c, v)
  {
    var jar := Jar(ToApp(a), c);
    if s.headers == [] {
    } else if s.headers == [SetCookie("", -1)] && v.account.None? {
      ReceiveOne(jar, a.m.now, SetCookie("", -1));
    } else {
      KeptShows(a, a', c, v, s.id, jar, if |s.headers| == 1 then [] else [SetCookie("", -1)]);
    }
  }

  /** A client keeps the cookie of a session at least as long as the session lives. */
  lemma KeptShows(a: Net, a': Net, c: nat, v: View, id: Id, jar: Option<JarCookie>, before: seq<SetCookie>)
    requires CookieOutlivesSession(a.m.maxAge) && Valid(a.m) && v.now == a.m.now && Kept(a, v, id)
    requires a'.m.pool == a.m.pool && a'.m.now == a.m.now && a'.m.maxAge == a.m.maxAge
    requires before == [] || before == [SetCookie("", -1)]
    requires Jar(ToApp(a'), c) == Receive(jar, a.m.now, before + [Renewed(a, id)])
    ensures Shows(ToApp(a'), c, v)
  {
    WholeSecondsCover(a.m.maxAge);
    ReceiveOne(jar, a.m.now, Renewed(a, id));
    ReceiveOne(None, a.m.now, Renewed(a, id));
    ReceiveAfterClear(jar, a.m.now, [Renewed(a, id)]);
    assert [] + [Renewed(a, id)] == [Renewed(a, id)];
  }

  lemma LogInWrites(a: Net, owner: map<Id, nat>, c: nat, v: View, due: Reply)
    requires Owned(a, owner) && Can(a, Proceed(c)) && v.now == a.m.now
    requires a.serving[c].stage.Opened? || a.serving[c].stage.Named?
    requires Pending(a, c, v, due, a.serving[c]) && a.serving[c].e.LogIn?
    ensures Pending(Perform(a, Proceed(c)), c, v, due, Advance(a, c))
  {
  }

  lemma LogInSaves(a: Net, owner: map<Id, nat>, c: nat, v: View, due: Reply)
    requires Owned(a, owner) && Can(a, Proceed(c)) && v.now == a.m.now && a.serving[c].stage.Written?
    requires Pending(a, c, v, due, a.serving[c]) && a.serving[c].e.LogIn?
    ensures Pending(Perform(a, Proceed(c)), c, v, due, Advance(a, c))
  {
  }

  lemma LogOutAdvances(a: Net, owner: map<Id, nat>, c: nat, v: View, due: Reply)
    requires Owned(a, owner) && Can(a, Proceed(c)) && v.now == a.m.now && !a.serving[c].stage.Answered?
    requires Pending(a, c, v, due, a.serving[c]) && a.serving[c].e.LogOut?
    ensures Pending(Perform(a, Proceed(c)), c, v, due, Advance(a, c))
  {
  }

  lemma ProfileReads(a: Net, owner: map<Id, nat>, c: nat, v: View, due: Reply)
    requires Owned(a, owner) && Can(a, Proceed(c)) && v.now == a.m.now && a.serving[c].stage.Opened?
    requires Pending(a, c, v, due, a.serving[c]) && a.serving[c].e.ShowProfile?
    ensures Pending(Perform(a, Proceed(c)), c, v, due, Advance(a, c))
  {
  }

  lemma ProfileFinishes(a: Net, owner: map<Id, nat>, c: nat, v: View, due: Reply)
    requires Owned(a, owner) && Can(a, Proceed(c)) && v.now == a.m.now && a.serving[c].stage.Written?
    requires Pending(a, c, v, due, a.serving[c]) && a.serving[c].e.ShowProfile?
    ensures Pending(Perform(a, Proceed(c)), c, v, due, Advance(a, c))
  {
  }

  lemma PendingAdvances(a: Net, owner: map<Id, nat>, c: nat, v: View, due: Reply)
    requires Owned(a, owner) && Can(a, Proceed(c)) && v.now == a.m.now && !a.serving[c].stage.Answered?
    requires Pending(a, c, v, due, a.serving[c])
    ensures Pending(Perform(a, Proceed(c)), c, v, due, Advance(a, c))
  {
    var s := a.serving[c];
    match s.e
    case LogIn(_, _, _, _) =>
      if s.stage.Written? {
        LogInSaves(a, owner, c, v, due);
      } else {
        LogInWrites(a, owner, c, v, due);
      }
    case LogOut(_, _) => LogOutAdvances(a, owner, c, v, due);
    case ShowProfile(_, _) =>
      if s.stage.Written? {
        ProfileFinishes(a, owner, c, v, due);
      } else {
        ProfileReads(a, owner, c, v, due);
      }
  }

  lemma TracksAdvance(a: Net, owner: map<Id, nat>, c: nat, h: History)
    requires Owned(a, owner) && Can(a, Proceed(c)) && Tracks(a, c, h) && !a.serving[c].stage.Answered?
    ensures Tracks(Perform(a, Proceed(c)), c, h)
  {
    var due := h.replies[|h.replies| - 1];
    PendingAdvances(a, owner, c, h.view, due);
    ClockOf(a, Proceed(c));
    TracksPending(Perform(a, Proceed(c)), c, h.replies[..|h.replies| - 1], h.view, due);
    assert h.replies == h.replies[..|h.replies| - 1] + [due];
  }

  // ---- every run ----

  lemma TracksOthers(a: Net, owner: map<Id, nat>, c: nat, h: History, act: Act)
    requires Owned(a, owner) && Can(a, act) && Tracks(a, c, h)
    requires (act.Arrive? ==> act.e.c != c) && (act.Proceed? ==> act.c != c)
    ensures Tracks(Perform(a, act), c, Observe(h, a.m.maxAge, a.users, c, act))
  {
    OthersDoNotMatter(a, owner, c, act);
    TracksStays(a, Perform(a, act), owner, c, h);
    ClockOf(a, act);
    assert Observe(h, a.m.maxAge, a.users, c, act) == h.(view := h.view.(now := Perform(a, act).m.now));
  }

  lemma ClockOf(a: Net, act: Act)
    requires Can(a, act)
    ensures Perform(a, act).m.now == a.m.now + if act.Wait? then act.dt else 0
  {
  }

  lemma TracksNext(a: Net, owner: map<Id, nat>, c: nat, h: History, act: Act)
    requires CookieOutlivesSession(a.m.maxAge)
    requires Owned(a, owner) && Can(a, act) && Tracks(a, c, h)
    ensures Tracks(Perform(a, act), c, Observe(h, a.m.maxAge, a.users, c, act))
  {
    if act.Arrive? && act.e.c == c {
      TracksArrive(a, owner, c, h, act.e);
    } else if act.Proceed? && act.c == c {
      TracksProceed(a, owner, c, h);
    } else {
      TracksOthers(a, owner, c, h, act);
    }
  }

  lemma TracksProceed(a: Net, owner: map<Id, nat>, c: nat, h: History)
    requires CookieOutlivesSession(a.m.maxAge)
    requires Owned(a, owner) && Can(a, Proceed(c)) && Tracks(a, c, h)
    ensures Tracks(Perform(a, Proceed(c)), c, h)
  {
    if a.serving[c].stage.Answered? {
      TracksAnswer(a, owner, c, h);
    } else {
      TracksAdvance(a, owner, c, h);
    }
  }

  function OwnersAfter(a: Net, owner: map<Id, nat>, acts: seq<Act>): map<Id, nat>
    requires AllCan(a, acts)
    decreases |acts|
  {
    if acts == [] then owner else OwnersAfter(Perform(a, acts[0]), NextOwner(a, owner, acts[0]), acts[1..])
  }

  /** In every reachable state no two clients have a session in common. */
  lemma {:induction false} OwnedAfter(a: Net, owner: map<Id, nat>, acts: seq<Act>)
    requires Owned(a, owner) && AllCan(a, acts)
    ensures Owned(PerformAll(a, acts), OwnersAfter(a, owner, acts))
    decreases |acts|
  {
    if acts != [] {
      OwnedNext(a, owner, acts[0]);
      OwnedAfter(Perform(a, acts[0]), NextOwner(a, owner, acts[0]), acts[1..]);
    }
  }

  lemma {:induction false} TracksAfter(a: Net, owner: map<Id, nat>, c: nat, h: History, acts: seq<Act>)
    requires CookieOutlivesSession(a.m.maxAge)
    requires Owned(a, owner) && AllCan(a, acts) && Tracks(a, c, h)
    ensures Tracks(PerformAll(a, acts), c, ObserveAll(h, a.m.maxAge, a.users, c, acts))
    decreases |acts|
  {
    if acts != [] {
      var a1, h1 := Perform(a, acts[0]), Observe(h, a.m.maxAge, a.users, c, acts[0]);
      OwnedNext(a, owner, acts[0]);
      TracksNext(a, owner, c, h, acts[0]);
      TracksAfter(a1, NextOwner(a, owner, acts[0]), c, h1, acts[1..]);
    }
  }

  /** In every interleaving of any number of clients' requests, waits and cleanups, the answers a
      client receives are the answers its own history calls for: those to its own requests, with
      the session they found when they arrived, as if no other client existed, and never a crash.
      A request that is still being served lacks its one answer, has prepared no other, and can
      proceed. */
  lemma EveryClientSeesItsOwnHistory(now: int, maxAge: int, users: map<string, User>, acts: seq<Act>, c: nat)
    requires CookieOutlivesSession(maxAge) && AllCan(Opening(now, maxAge, users), acts)
    ensures var a := PerformAll(Opening(now, maxAge, users), acts);
            var due := ObserveAll(History(View(now, None), []), maxAge, users, c, acts).replies;
            if c in a.serving then
              && |due| == |Replies(a, c)| + 1 && Replies(a, c) == due[..|due| - 1]
              && (a.serving[c].reply.Some? ==> a.serving[c].reply.value == due[|due| - 1])
              && Can(a, Proceed(c))
            else Replies(a, c) == due
    ensures Crash !in ObserveAll(History(View(now, None), []), maxAge, users, c, acts).replies
  {
    NoCrashIsDue(History(View(now, None), []), maxAge, users, c, acts);
    var a0 := Opening(now, maxAge, users);
    TracksAfter(a0, map[], c, History(View(now, None), []), acts);
    OwnedAfter(a0, map[], acts);
    var a, owner := PerformAll(a0, acts), OwnersAfter(a0, map[], acts);
    if c in a.serving && c in a.m.flights {
      assert OwnedFlight(owner, c, a.m.flights[c], a.serving[c].id);
    }
  }

  /** No history calls for a crash. */
  lemma {:induction false} NoCrashIsDue(h: History, maxAge: int, users: map<string, User>, c: nat, acts: seq<Act>)
    requires Crash !in h.replies
    ensures Crash !in ObserveAll(h, maxAge, users, c, acts).replies
    decreases |acts|
  {
    if acts != [] {
      NoCrashIsDue(Observe(h, maxAge, users, c, acts[0]), maxAge, users, c, acts[1..]);
    }
  }

  /** A client is answered with a user only after it has given that user's password. */
  lemma {:induction false} AnswersComeFromLogIns(h: History, maxAge: int, users: map<string, User>, c: nat,
                                                 acts: seq<Act>, r: Reply)
    requires r.ProfileOf? && r in ObserveAll(h, maxAge, users, c, acts).replies && r !in h.replies
    ensures h.view.account.Some? && h.view.account.value.user.Some? ==>
              var u := h.view.account.value.user.value;
              (r.id == u.id && r.username == u.username) || GivesPassword(users, c, acts, r)
    ensures h.view.account.None? || h.view.account.value.user.None? ==> GivesPassword(users, c, acts, r)
    decreases |acts|
  {
    if acts != [] {
      var h1, first, rest := Observe(h, maxAge, users, c, acts[0]), acts[0], acts[1..];
      assert forall act :: act in acts <==> act == first || act in rest;
      if first.Arrive? && !first.e.Pass? && !first.e.Sweep? && LogsIn(users, c, first.e, r.id, r.username) {
        assert GivesPassword(users, c, acts, r);
      } else if r in h1.replies {
        assert r == Due(h, users, first.e);
      } else {
        AnswersComeFromLogIns(h1, maxAge, users, c, rest, r);
        if GivesPassword(users, c, rest, r) {
          var act :| act in rest && act.Arrive? && LogsIn(users, c, act.e, r.id, r.username);
          assert act in acts;
        }
      }
    }
  }

  ghost predicate GivesPassword(users: map<string, User>, c: nat, acts: seq<Act>, r: Reply)
    requires r.ProfileOf?
  {
    exists act <- acts :: act.Arrive? && LogsIn(users, c, act.e, r.id, r.username)
  }

  /** The steps the interleaved requests take on the session machine. */
  function Schedule(a: Net, acts: seq<Act>): seq<Step>
    requires AllCan(a, acts)
    decreases |acts|
  {
    if acts == [] then []
    else
      var st, rest := MachineStep(a, acts[0]), Schedule(Perform(a, acts[0]), acts[1..]);
      if st.Some? then [st.value] + rest else rest
  }

  /** They are a run of that machine, so what holds of all its runs holds here, and
      `Sessions.Server.Execute` carries them out on shared objects. */
  lemma {:induction false} NetRunsTheMachine(a: Net, acts: seq<Act>)
    requires AllCan(a, acts)
    ensures Runs(a.m, Schedule(a, acts)) && Run(a.m, Schedule(a, acts)) == PerformAll(a, acts).m
    decreases |acts|
  {
    if acts != [] {
      NetRunsTheMachine(Perform(a, acts[0]), acts[1..]);
      var st := MachineStep(a, acts[0]);
      if st.Some? {
        RunCons(a.m, st.value, Schedule(Perform(a, acts[0]), acts[1..]));
      }
    }
  }

  /** The acts of one request that nothing interrupts. */
  function Serially(a: Net, e: Event): seq<Act>
    requires !e.Pass? && !e.Sweep?
  {
    var p := Proceed(e.c);
    if Refused(a, e) then [Arrive(e), p] else if e.LogIn? then [Arrive(e), p, p, p, p] else [Arrive(e), p, p, p]
  }

  /** Net a with client c's request in the given state. */
  function With(a: Net, p: Pool, f: Flight, s: Service, c: nat): Net {
    a.(m := a.m.(pool := p, flights := a.m.flights[c := f]), serving := a.serving[c := s])
  }

  lemma SerialArrive(a: Net, e: Event)
    requires Can(a, Arrive(e)) && !Refused(a, e)
    ensures var cookie := Sent(Jar(ToApp(a), e.c), a.m.now);
            var id, p := LoadedId(a.m.pool, a.m.now, cookie, e.newId),
                         PoolLoad(a.m.pool, a.m.now, a.m.maxAge, cookie, e.newId);
            && id in p.recs
            && Perform(a, Arrive(e)) == With(a, p, Flight(cookie, id), Service(e, Opened, id, [], None), e.c)
  {
  }

  /** A step that the request survives. */
  lemma SerialProceed(a: Net, p: Pool, f: Flight, s: Service, c: nat)
    requires f.id in p.recs && !s.stage.Answered? && (s.stage.Written? ==> s.e.LogIn?)
    ensures var b := With(a, p, f, s, c);
            && Can(b, Proceed(c))
            && Perform(b, Proceed(c)) == With(a, MachineNext(b, Proceed(c)).pool, f, Advance(b, c), c)
  {
  }

  /** The middleware's tail, which ends the flight. */
  lemma SerialFinish(a: Net, p: Pool, f: Flight, s: Service, c: nat)
    requires c !in a.m.flights && f.id in p.recs && s.stage.Written? && !s.e.LogIn?
    ensures var b := With(a, p, f, s, c);
            && Can(b, Proceed(c))
            && Perform(b, Proceed(c))
               == a.(m := a.m.(pool := PoolFinish(p, f.id)), serving := a.serving[c := Advance(b, c)])
  {
    assert a.m.flights[c := f] - {c} == a.m.flights;
  }

  /** The last act of a request: it leaves its pool and its answer. */
  lemma SerialAnswer(a: Net, b: Net, c: nat, p: Pool)
    requires c !in a.m.flights && c !in a.serving && Can(b, Proceed(c)) && b.serving[c].stage.Answered?
    requires b.m == a.m.(pool := p, flights := b.m.flights) && b.m.flights - {c} == a.m.flights
    requires b == a.(m := b.m, serving := a.serving[c := b.serving[c]]) && b.serving[c].reply.Some?
    ensures var s := b.serving[c];
            Perform(b, Proceed(c))
            == a.(m := a.m.(pool := p), replies := a.replies[c := Replies(a, c) + [s.reply.value]],
                  jars := a.jars[c := Receive(Jar(ToApp(a), c), a.m.now, s.headers)])
  {
    assert b.serving - {c} == a.serving;
    assert c !in b.m.flights ==> b.m.flights - {c} == b.m.flights;
  }

  function Served(a: Net, c: nat, o: Outcome): Net {
    a.(m := a.m.(pool := o.pool), replies := a.replies[c := Replies(a, c) + [o.reply]],
       jars := a.jars[c := Receive(Jar(ToApp(a), c), a.m.now, o.headers)])
  }

  /** A login as far as its second write. */
  lemma SerialWrites(a: Net, e: Event)
    requires Can(a, Arrive(e)) && e.LogIn? && !Refused(a, e)
    ensures var act, cookie, a1 := Proceed(e.c), Sent(Jar(ToApp(a), e.c), a.m.now), Perform(a, Arrive(e));
            var id, p := LoadedId(a.m.pool, a.m.now, cookie, e.newId),
                         PoolLoad(a.m.pool, a.m.now, a.m.maxAge, cookie, e.newId);
            && id in p.recs && Can(a1, act) && Can(Perform(a1, act), act)
            && Perform(Perform(a1, act), act)
               == With(a, Identify(p, id, Who(a, e).value), Flight(cookie, id), Service(e, Written, id, [], None), e.c)
  {
    SerialArrive(a, e);
    var c, u := e.c, Who(a, e).value;
    var cookie := Sent(Jar(ToApp(a), c), a.m.now);
    var id := LoadedId(a.m.pool, a.m.now, cookie, e.newId);
    var p1 := PoolLoad(a.m.pool, a.m.now, a.m.maxAge, cookie, e.newId);
    SerialProceed(a, p1, Flight(cookie, id), Service(e, Opened, id, [], None), c);
    var p2 := PoolSet(p1, id, "userID", Text(u.id));
    SerialProceed(a, p2, Flight(cookie, id), Service(e, Named, id, [], None), c);
  }

  /** And from there to its answer. */
  lemma SerialSaves(a: Net, p: Pool, f: Flight, e: Event)
    requires e.LogIn? && !Refused(a, e) && e.c !in a.m.flights && e.c !in a.serving && f.id in p.recs
    ensures var b, act, u := With(a, p, f, Service(e, Written, f.id, [], None), e.c), Proceed(e.c), Who(a, e).value;
            && AllCan(b, [act, act])
            && PerformAll(b, [act, act])
               == Served(a, e.c, Outcome(PoolSave(p, f.id), ProfileOf(u.id, u.username), [Renewed(a, f.id)]))
  {
    var b := With(a, p, f, Service(e, Written, f.id, [], None), e.c);
    SerialProceed(a, p, f, b.serving[e.c], e.c);
    var b' := Perform(b, Proceed(e.c));
    SerialAnswer(a, b', e.c, PoolSave(p, f.id));
    LastTwo(b, b', Proceed(e.c));
  }

  lemma SerialLogIn(a: Net, e: Event)
    requires Can(a, Arrive(e)) && e.LogIn? && !Refused(a, e)
    ensures AllCan(a, Serially(a, e)) && PerformAll(a, Serially(a, e)) == Served(a, e.c, Serve(ToApp(a), e))
  {
    SerialWrites(a, e);
    var act := Proceed(e.c);
    var cookie := Sent(Jar(ToApp(a), e.c), a.m.now);
    var id := LoadedId(a.m.pool, a.m.now, cookie, e.newId);
    var p := Identify(PoolLoad(a.m.pool, a.m.now, a.m.maxAge, cookie, e.newId), id, Who(a, e).value);
    var a1 := Perform(a, Arrive(e));
    var a2 := Perform(a1, act);
    SerialSaves(a, p, Flight(cookie, id), e);
    FirstThree(a, a1, a2, Perform(a2, act), Arrive(e), act, [act, act]);
    assert [Arrive(e), act, act] + [act, act] == Serially(a, e);
  }

  lemma SerialLogOut(a: Net, e: Event)
    requires Can(a, Arrive(e)) && e.LogOut?
    ensures AllCan(a, Serially(a, e)) && PerformAll(a, Serially(a, e)) == Served(a, e.c, Serve(ToApp(a), e))
  {
    SerialArrive(a, e);
    var act, c := Proceed(e.c), e.c;
    var cookie := Sent(Jar(ToApp(a), c), a.m.now);
    var id := LoadedId(a.m.pool, a.m.now, cookie, e.newId);
    var p1 := PoolLoad(a.m.pool, a.m.now, a.m.maxAge, cookie, e.newId);
    var p2 := PoolDestroy(p1, cookie);
    var a1 := Perform(a, Arrive(e));
    SerialProceed(a, p1, Flight(cookie, id), Service(e, Opened, id, [], None), c);
    var a2 := Perform(a1, act);
    assert a2 == With(a, p2, Flight(cookie, id), Service(e, Written, id, [SetCookie("", -1)], Some(LoggedOut)), c);
    var a3 := Perform(a2, act);
    SerialFinish(a, p2, Flight(cookie, id), a2.serving[c], c);
    SerialAnswer(a, a3, c, PoolFinish(p2, id));
    PerformCons(a3, act, []);
    FirstThree(a, a1, a2, a3, Arrive(e), act, [act]);
    assert [Arrive(e), act, act] + [act] == Serially(a, e);
  }

  lemma SerialProfile(a: Net, e: Event)
    requires Can(a, Arrive(e)) && e.ShowProfile?
    ensures AllCan(a, Serially(a, e)) && PerformAll(a, Serially(a, e)) == Served(a, e.c, Serve(ToApp(a), e))
  {
    SerialArrive(a, e);
    var act, c := Proceed(e.c), e.c;
    var cookie := Sent(Jar(ToApp(a), c), a.m.now);
    var id := LoadedId(a.m.pool, a.m.now, cookie, e.newId);
    var p1 := PoolLoad(a.m.pool, a.m.now, a.m.maxAge, cookie, e.newId);
    var a1 := Perform(a, Arrive(e));
    SerialProceed(a, p1, Flight(cookie, id), Service(e, Opened, id, [], None), c);
    var a2 := Perform(a1, act);
    assert a2 == With(a, p1, Flight(cookie, id), Service(e, Written, id, [], Some(ProfileReply(p1.recs[id]))), c);
    var a3 := Perform(a2, act);
    SerialFinish(a, p1, Flight(cookie, id), a2.serving[c], c);
    assert [] + TailHeaders(p1, a.m.maxAge, id) == TailHeaders(p1, a.m.maxAge, id);
    SerialAnswer(a, a3, c, PoolFinish(p1, id));
    PerformCons(a3, act, []);
    FirstThree(a, a1, a2, a3, Arrive(e), act, [act]);
    assert [Arrive(e), act, act] + [act] == Serially(a, e);
  }

  lemma SerialRefused(a: Net, e: Event)
    requires Can(a, Arrive(e)) && Refused(a, e)
    ensures AllCan(a, Serially(a, e)) && PerformAll(a, Serially(a, e)) == Served(a, e.c, Serve(ToApp(a), e))
  {
    var a1 := Perform(a, Arrive(e));
    SerialAnswer(a, a1, e.c, a.m.pool);
    PerformCons(a1, Proceed(e.c), []);
    PerformCons(a, Arrive(e), [Proceed(e.c)]);
  }

  /** A request that nothing interrupts does what the service's methods do at once, so the runs
      of non-overlapping requests in module AuthFlow are among those considered here. */
  lemma SerialIsServe(a: Net, e: Event)
    requires Can(a, Arrive(e))
    ensures AllCan(a, Serially(a, e))
    ensures var a' := PerformAll(a, Serially(a, e));
            && ToApp(a') == Happen(ToApp(a), e)
            && a'.m.flights == a.m.flights && a'.serving == a.serving
            && a'.replies == a.replies[e.c := Replies(a, e.c) + [Serve(ToApp(a), e).reply]]
  {
    if Refused(a, e) {
      SerialRefused(a, e);
    } else {
      match e
      case LogIn(_, _, _, _) => SerialLogIn(a, e);
      case LogOut(_, _) => SerialLogOut(a, e);
      case ShowProfile(_, _) => SerialProfile(a, e);
    }
  }

  lemma LastTwo(a: Net, b: Net, act: Act)
    requires Can(a, act) && b == Perform(a, act) && Can(b, act)
    ensures AllCan(a, [act, act]) && PerformAll(a, [act, act]) == Perform(b, act)
  {
    PerformCons(b, act, []);
    PerformCons(a, act, [act]);
  }

  lemma FirstThree(a: Net, a1: Net, a2: Net, a3: Net, first: Act, act: Act, rest: seq<Act>)
    requires Can(a, first) && a1 == Perform(a, first) && Can(a1, act) && a2 == Perform(a1, act)
    requires Can(a2, act) && a3 == Perform(a2, act) && AllCan(a3, rest)
    ensures AllCan(a, [first, act, act] + rest)
    ensures PerformAll(a, [first, act, act] + rest) == PerformAll(a3, rest)
  {
    PerformCons(a2, act, rest);
    PerformCons(a1, act, [act] + rest);
    PerformCons(a, first, [act] + ([act] + rest));
    assert [first] + ([act] + ([act] + rest)) == [first, act, act] + rest;
  }

  lemma PerformCons(a: Net, act: Act, rest: seq<Act>)
    requires Can(a, act) && AllCan(Perform(a, act), rest)
    ensures AllCan(a, [act] + rest) && PerformAll(a, [act] + rest) == PerformAll(Perform(a, act), rest)
  {
    assert ([act] + rest)[1..] == rest;
  }
}
