/** The session routes of the auth example when requests for one session overlap, as a client's
    own parallel requests do: when is a logout final?

    A request is a session loaded and a plan, the session actions its route still has to take. */
module AuthOverlap {
  import opened Basics
  import opened SessionSpec
  import opened AuthFlow

  /** Close is the middleware's conditional save; Leave ends a request that bypasses it. */
  datatype Action = Put(key: string, value: Value) | Keep | Drop | Close | Leave

  datatype Kind = AsLogIn(u: User) | AsLogOut | AsProfile

  function Plan(kind: Kind): seq<Action> {
    match kind
    case AsLogIn(u) => [Put("userID", Text(u.id)), Put("username", Text(u.username)), Keep, Leave]
    case AsLogOut => [Drop, Close]
    case AsProfile => [Close]
  }

  datatype Traffic = Traffic(m: Machine, plans: map<nat, seq<Action>>)

  /** A login opens here once its password has been accepted. */
  datatype Move = Open(r: nat, cookie: Option<Id>, newId: Id, kind: Kind) | Go(r: nat) | Wait(dt: nat) | Clean

  function ActionStep(r: nat, action: Action): Step {
    match action
    case Put(key, value) => SetValue(r, key, value)
    case Keep => Save(r)
    case Drop => Destroy(r)
    case Close => Finish(r)
    case Leave => End(r)
  }

  function MoveStep(a: Traffic, mv: Move): Step
    requires mv.Go? ==> mv.r in a.plans && a.plans[mv.r] != []
  {
    match mv
    case Open(r, cookie, newId, _) => Load(r, cookie, newId)
    case Go(r) => ActionStep(r, a.plans[r][0])
    case Wait(dt) => Tick(dt)
    case Clean => Cleanup
  }

  predicate May(a: Traffic, mv: Move) {
    && (mv.Go? ==> mv.r in a.plans && a.plans[mv.r] != [])
    && (mv.Open? ==> mv.r !in a.plans)
    && Enabled(a.m, MoveStep(a, mv))
  }

  function Moved(a: Traffic, mv: Move): Traffic
    requires May(a, mv)
  {
    var m := Next(a.m, MoveStep(a, mv));
    match mv
    case Open(r, _, _, kind) => Traffic(m, a.plans[r := Plan(kind)])
    case Go(r) => Traffic(m, if |a.plans[r]| == 1 then a.plans - {r} else a.plans[r := a.plans[r][1..]])
    case _ => a.(m := m)
  }

  predicate AllMay(a: Traffic, moves: seq<Move>)
    decreases |moves|
  {
    moves == [] || (May(a, moves[0]) && AllMay(Moved(a, moves[0]), moves[1..]))
  }

  function AfterAll(a: Traffic, moves: seq<Move>): Traffic
    requires AllMay(a, moves)
    decreases |moves|
  {
    if moves == [] then a else AfterAll(Moved(a, moves[0]), moves[1..])
  }

  lemma AfterCons(a: Traffic, mv: Move, rest: seq<Move>)
    requires May(a, mv) && AllMay(Moved(a, mv), rest)
    ensures AllMay(a, [mv] + rest) && AfterAll(a, [mv] + rest) == AfterAll(Moved(a, mv), rest)
  {
    assert ([mv] + rest)[1..] == rest;
  }

  // ---- what every run keeps ----

  /** What can remain of a plan. */
  predicate Rest(p: seq<Action>) {
    || p == [Close] || p == [Drop, Close] || p == [Leave] || p == [Keep, Leave]
    || (|p| == 3 && p[0].Put? && p[1..] == [Keep, Leave])
    || (|p| == 4 && p[0].Put? && p[1].Put? && p[2..] == [Keep, Leave])
  }

  lemma PlanIsRest(kind: Kind)
    ensures Rest(Plan(kind))
  {
  }

  lemma RestGoesOn(p: seq<Action>)
    requires Rest(p)
    ensures (|p| == 1 <==> p[0] == Close || p[0] == Leave) && (|p| > 1 ==> Rest(p[1..]))
    ensures Keep in p <==> p[0].Put? || p[0] == Keep
    ensures Close in p <==> p[0] == Drop || p[0] == Close
    ensures p[0].Put? ==> Keep in p[1..]
    ensures p[0] == Drop ==> Close in p[1..]
  {
    assert |p| > 1 ==> p == [p[0]] + p[1..];
    assert |p| == 4 ==> p[1..][1..] == p[2..] && p[1..] == [p[1]] + p[2..];
  }

  ghost predicate WellFormed(a: Traffic) {
    && Valid(a.m) && a.plans.Keys == a.m.flights.Keys
    && forall r <- a.plans :: Rest(a.plans[r])
  }

  lemma WellFormedNext(a: Traffic, mv: Move)
    requires WellFormed(a) && May(a, mv)
    ensures WellFormed(Moved(a, mv))
  {
    NextValid(a.m, MoveStep(a, mv));
    if mv.Open? {
      PlanIsRest(mv.kind);
    } else if mv.Go? {
      RestGoesOn(a.plans[mv.r]);
    }
  }

  lemma {:induction false} WellFormedAfter(a: Traffic, moves: seq<Move>)
    requires WellFormed(a) && AllMay(a, moves)
    ensures WellFormed(AfterAll(a, moves))
    decreases |moves|
  {
    if moves != [] {
      WellFormedNext(a, moves[0]);
      WellFormedAfter(Moved(a, moves[0]), moves[1..]);
    }
  }

  /** The runs are runs of the session machine. */
  function Schedule(a: Traffic, moves: seq<Move>): seq<Step>
    requires AllMay(a, moves)
    decreases |moves|
  {
    if moves == [] then [] else [MoveStep(a, moves[0])] + Schedule(Moved(a, moves[0]), moves[1..])
  }

  lemma {:induction false} TrafficRunsTheMachine(a: Traffic, moves: seq<Move>)
    requires AllMay(a, moves)
    ensures Runs(a.m, Schedule(a, moves)) && Run(a.m, Schedule(a, moves)) == AfterAll(a, moves).m
    decreases |moves|
  {
    if moves != [] {
      TrafficRunsTheMachine(Moved(a, moves[0]), moves[1..]);
      RunCons(a.m, MoveStep(a, moves[0]), Schedule(Moved(a, moves[0]), moves[1..]));
    }
  }

  // ---- when a session out of the store comes back ----

  predicate Touched(rec: Rec) {
    rec.isNew || rec.modified
  }

  /** The request will put the session it holds back: a login that has yet to save, or one that
      has yet to close and finds the session touched. */
  predicate Revives(a: Traffic, r: nat, id: Id) {
    && r in a.plans && r in a.m.flights && a.m.flights[r].id == id && id in a.m.pool.recs
    && (Keep in a.plans[r] || (Close in a.plans[r] && Touched(a.m.pool.recs[id])))
  }

  /** No request in flight puts the session back. */
  ghost predicate Out(a: Traffic, id: Id) {
    && WellFormed(a) && id in a.m.pool.recs && id !in a.m.pool.stored
    && forall r <- a.plans :: !Revives(a, r, id)
  }

  /** A step of any request leaves such a session's record alone and out of the store. */
  lemma OutAlone(a: Traffic, r: nat, id: Id)
    requires Out(a, id) && May(a, Go(r))
    ensures var m := Moved(a, Go(r)).m; m.pool.recs[id] == a.m.pool.recs[id] && id !in m.pool.stored
  {
    RestGoesOn(a.plans[r]);
    assert !Revives(a, r, id);
  }

  lemma StillNotReviving(a: Traffic, r: nat, o: nat, id: Id)
    requires WellFormed(a) && May(a, Go(r)) && o in a.plans && !Revives(a, o, id)
    requires id in a.m.pool.recs && Moved(a, Go(r)).m.pool.recs[id] == a.m.pool.recs[id]
    ensures !Revives(Moved(a, Go(r)), o, id)
  {
    var a', p := Moved(a, Go(r)), a.plans[r];
    RestGoesOn(p);
    if o in a'.plans && o == r {
      assert a'.plans[r] == p[1..] && p == [p[0]] + p[1..];
    }
  }

  lemma OutGo(a: Traffic, r: nat, id: Id)
    requires Out(a, id) && May(a, Go(r))
    ensures Out(Moved(a, Go(r)), id)
  {
    WellFormedNext(a, Go(r));
    OutAlone(a, r, id);
    forall o | o in Moved(a, Go(r)).plans
      ensures !Revives(Moved(a, Go(r)), o, id)
    {
      StillNotReviving(a, r, o, id);
    }
  }

  lemma OutNext(a: Traffic, mv: Move, id: Id)
    requires Out(a, id) && May(a, mv)
    ensures Out(Moved(a, mv), id)
  {
    if mv.Go? {
      OutGo(a, mv.r, id);
    } else {
      WellFormedNext(a, mv);
      var a' := Moved(a, mv);
      assert a'.m.pool.recs[id] == a.m.pool.recs[id] && id !in a'.m.pool.stored;
      forall o | o in a'.plans
        ensures !Revives(a', o, id)
      {
        if o in a.plans {
          assert !Revives(a, o, id);
        }
      }
    }
  }

  lemma {:induction false} OutStays(a: Traffic, moves: seq<Move>, id: Id)
    requires Out(a, id) && AllMay(a, moves)
    ensures id !in AfterAll(a, moves).m.pool.stored
    decreases |moves|
  {
    if moves != [] {
      OutNext(a, moves[0], id);
      OutStays(Moved(a, moves[0]), moves[1..], id);
    }
  }

  /** A request that revives a session does so by going on. */
  lemma {:induction false} GoesOnToRevive(a: Traffic, r: nat, id: Id) returns (moves: seq<Move>)
    requires WellFormed(a) && Revives(a, r, id)
    ensures AllMay(a, moves) && id in AfterAll(a, moves).m.pool.stored
    decreases |a.plans[r]|
  {
    var p := a.plans[r];
    RestGoesOn(p);
    assert May(a, Go(r));
    if p[0] == Keep || p[0] == Close {
      moves := [Go(r)] + [];
      AfterCons(a, Go(r), []);
    } else {
      WellFormedNext(a, Go(r));
      var rest := GoesOnToRevive(Moved(a, Go(r)), r, id);
      moves := [Go(r)] + rest;
      AfterCons(a, Go(r), rest);
    }
  }

  /** A session out of the store stays out, whatever requests are sent, exactly when no login
      holds it that has yet to save, and, if it is touched, no request that has yet to close. */
  lemma OutForGoodIff(a: Traffic, id: Id)
    requires WellFormed(a) && id in a.m.pool.recs && id !in a.m.pool.stored
    ensures (forall moves | AllMay(a, moves) :: id !in AfterAll(a, moves).m.pool.stored)
       <==> (forall r <- a.plans :: !Revives(a, r, id))
  {
    if r :| r in a.plans && Revives(a, r, id) {
      var moves := GoesOnToRevive(a, r, id);
      assert AllMay(a, moves);
    } else {
      forall moves | AllMay(a, moves)
        ensures id !in AfterAll(a, moves).m.pool.stored
      {
        OutStays(a, moves, id);
      }
    }
  }

  /** A logout that destroys the session it loaded is final exactly when the session is untouched
      at that moment and no login in flight holds it that has yet to save. */
  lemma LogOutIsFinalIff(a: Traffic, r: nat, id: Id)
    requires WellFormed(a) && May(a, Go(r)) && a.plans[r] == [Drop, Close]
    requires a.m.flights[r] == Flight(Some(id), id) && id != ""
    ensures var a1 := Moved(a, Go(r));
            (forall moves | AllMay(a1, moves) :: id !in AfterAll(a1, moves).m.pool.stored)
            <==> !Touched(a.m.pool.recs[id])
                 && forall o <- a.plans :: a.m.flights[o].id == id ==> Keep !in a.plans[o]
  {
    var a1 := Moved(a, Go(r));
    WellFormedNext(a, Go(r));
    OutForGoodIff(a1, id);
    assert a1.plans[r] == [Close] && a1.m.flights == a.m.flights && a1.m.pool.recs == a.m.pool.recs;
    if Touched(a.m.pool.recs[id]) {
      assert Revives(a1, r, id);
    } else if o :| o in a.plans && a.m.flights[o].id == id && Keep in a.plans[o] {
      assert Revives(a1, o, id);
    }
  }

  /** Requests on one session `id` of an otherwise idle machine. */
  function Busy(m: Machine, id: Id, rec: Rec, stored: set<Id>, plans: map<nat, seq<Action>>): Traffic {
    var flights := map r | r in plans :: Flight(Some(id), id);
    Traffic(m.(pool := Pool(m.pool.recs[id := rec], stored), flights := flights), plans)
  }

  function Untouched(rec: Rec): Rec {
    rec.(isNew := false, modified := false)
  }

  lemma BusyOpen(m: Machine, id: Id, rec: Rec, stored: set<Id>, plans: map<nat, seq<Action>>, mv: Move)
    requires id in m.pool.recs && id in stored && id != "" && m.now <= rec.expiresAt
    requires mv.Open? && mv.cookie == Some(id) && mv.r !in plans
    requires mv.newId != "" && mv.newId !in m.pool.recs && mv.newId !in stored
    ensures var a := Busy(m, id, rec, stored, plans);
            && May(a, mv)
            && Moved(a, mv) == Busy(m, id, Untouched(rec), stored, plans[mv.r := Plan(mv.kind)])
  {
    var a' := Moved(Busy(m, id, rec, stored, plans), mv);
    assert a'.m.flights == map o | o in a'.plans :: Flight(Some(id), id);
  }

  /** What an action makes of the session's record and of the store. */
  function Acted(action: Action, id: Id, rec: Rec, stored: set<Id>): (Rec, set<Id>) {
    match action
    case Put(key, value) => (rec.(values := rec.values[key := value], modified := true), stored)
    case Keep => (rec, stored + {id})
    case Drop => (rec, stored - {id})
    case Close => (rec, if Touched(rec) then stored + {id} else stored)
    case Leave => (rec, stored)
  }

  lemma BusyGo(m: Machine, id: Id, rec: Rec, stored: set<Id>, plans: map<nat, seq<Action>>, r: nat)
    requires id in m.pool.recs && id != "" && r in plans && Rest(plans[r])
    ensures var a, act := Busy(m, id, rec, stored, plans), Acted(plans[r][0], id, rec, stored);
            && May(a, Go(r))
            && Moved(a, Go(r)) == Busy(m, id, act.0, act.1,
                                       if |plans[r]| == 1 then plans - {r} else plans[r := plans[r][1..]])
  {
    RestGoesOn(plans[r]);
    var a' := Moved(Busy(m, id, rec, stored, plans), Go(r));
    assert a'.m.flights == map o | o in a'.plans :: Flight(Some(id), id);
  }

  /** A login on the session, from its load to its end, with nothing in between. */
  lemma BusyLogIn(m: Machine, id: Id, rec: Rec, stored: set<Id>, plans: map<nat, seq<Action>>, r: nat,
                  newId: Id, u: User, rest: seq<Move>)
    requires id in m.pool.recs && id in stored && id != "" && m.now <= rec.expiresAt && r !in plans
    requires newId != "" && newId !in m.pool.recs && newId !in stored
    requires AllMay(Busy(m, id, LoggedIn(rec, u), stored, plans), rest)
    ensures var a, login := Busy(m, id, rec, stored, plans), LogInMoves(r, id, newId, u);
            && AllMay(a, login + rest)
            && AfterAll(a, login + rest) == AfterAll(Busy(m, id, LoggedIn(rec, u), stored, plans), rest)
  {
    var open, p := Open(r, Some(id), newId, AsLogIn(u)), Plan(AsLogIn(u));
    var a0 := Busy(m, id, rec, stored, plans);
    BusyOpen(m, id, rec, stored, plans, open);
    var a1 := Moved(a0, open);
    BusyGoOn(m, id, Untouched(rec), stored, plans, r, p);
    var a2 := Moved(a1, Go(r));
    var rec2 := Acted(p[0], id, Untouched(rec), stored).0;
    BusyGoOn(m, id, rec2, stored, plans, r, p[1..]);
    var a3 := Moved(a2, Go(r));
    assert p[1..][1..] == [Keep, Leave];
    BusyKeeps(m, id, LoggedIn(rec, u), stored, plans, r);
    var a4 := Moved(a3, Go(r));
    FourMoves(a1, a2, a3, a4, Go(r), rest);
    AfterCons(a0, open, [Go(r), Go(r), Go(r), Go(r)] + rest);
    assert [open] + ([Go(r), Go(r), Go(r), Go(r)] + rest) == LogInMoves(r, id, newId, u) + rest;
  }

  lemma BusyGoOn(m: Machine, id: Id, rec: Rec, stored: set<Id>, plans: map<nat, seq<Action>>, r: nat, p: seq<Action>)
    requires id in m.pool.recs && id != "" && r !in plans && Rest(p) && |p| > 1
    ensures var a, act := Busy(m, id, rec, stored, plans[r := p]), Acted(p[0], id, rec, stored);
            May(a, Go(r)) && Moved(a, Go(r)) == Busy(m, id, act.0, act.1, plans[r := p[1..]])
  {
    BusyGo(m, id, rec, stored, plans[r := p], r);
    assert plans[r := p][r := p[1..]] == plans[r := p[1..]];
  }

  lemma BusyKeeps(m: Machine, id: Id, rec: Rec, stored: set<Id>, plans: map<nat, seq<Action>>, r: nat)
    requires id in m.pool.recs && id in stored && id != "" && r !in plans
    ensures var a := Busy(m, id, rec, stored, plans[r := [Keep, Leave]]);
            && May(a, Go(r)) && May(Moved(a, Go(r)), Go(r))
            && Moved(Moved(a, Go(r)), Go(r)) == Busy(m, id, rec, stored, plans)
  {
    BusyGoOn(m, id, rec, stored, plans, r, [Keep, Leave]);
    assert stored + {id} == stored && [Keep, Leave][1..] == [Leave];
    BusyGo(m, id, rec, stored, plans[r := [Leave]], r);
    assert plans[r := [Leave]] - {r} == plans;
  }

  function LogInMoves(r: nat, id: Id, newId: Id, u: User): seq<Move> {
    [Open(r, Some(id), newId, AsLogIn(u)), Go(r), Go(r), Go(r), Go(r)]
  }

  function LoggedIn(rec: Rec, u: User): Rec {
    Rec(rec.values["userID" := Text(u.id)]["username" := Text(u.username)], rec.createdAt, rec.expiresAt, false, true)
  }

  lemma FourMoves(a1: Traffic, a2: Traffic, a3: Traffic, a4: Traffic, mv: Move, rest: seq<Move>)
    requires May(a1, mv) && a2 == Moved(a1, mv) && May(a2, mv) && a3 == Moved(a2, mv)
    requires May(a3, mv) && a4 == Moved(a3, mv) && May(a4, mv) && AllMay(Moved(a4, mv), rest)
    ensures AllMay(a1, [mv, mv, mv, mv] + rest)
    ensures AfterAll(a1, [mv, mv, mv, mv] + rest) == AfterAll(Moved(a4, mv), rest)
  {
    AfterCons(a4, mv, rest);
    AfterCons(a3, mv, [mv] + rest);
    AfterCons(a2, mv, [mv] + ([mv] + rest));
    AfterCons(a1, mv, [mv] + ([mv] + ([mv] + rest)));
    assert [mv] + ([mv] + ([mv] + ([mv] + rest))) == [mv, mv, mv, mv] + rest;
  }

  /** The logout's two last moves, with nothing in between. */
  lemma BusyLogOut(m: Machine, id: Id, rec: Rec, stored: set<Id>, r: nat)
    requires id in m.pool.recs && id != ""
    ensures var a := Busy(m, id, rec, stored, map[r := Plan(AsLogOut)]);
            && AllMay(a, [Go(r), Go(r)])
            && AfterAll(a, [Go(r), Go(r)])
               == Busy(m, id, rec, if Touched(rec) then stored - {id} + {id} else stored - {id}, map[])
  {
    var plans := map[r := Plan(AsLogOut)];
    BusyGo(m, id, rec, stored, plans, r);
    assert plans[r := plans[r][1..]] == map[r := [Close]];
    BusyGo(m, id, rec, stored - {id}, map[r := [Close]], r);
    assert map[r := [Close]] - {r} == map[];
    var a := Busy(m, id, rec, stored, plans);
    AfterCons(Moved(a, Go(r)), Go(r), []);
    AfterCons(a, Go(r), [Go(r)]);
  }

  /** So it is not only a login still in flight that undoes a logout.  A login on the same session
      that starts after the logout has loaded it and is over before the logout destroys it leaves
      it touched, and the logout's own close puts it back, logged in. */
  lemma LogInUndoesLogOut(m: Machine, id: Id, newId: Id, u: User)
    requires Valid(m) && m.flights == map[] && id != "" && Hits(m.pool, m.now, id) && Fresh(m.pool, newId)
    ensures var open := Open(0, Some(id), newId, AsLogOut);
            var moves := [open] + (LogInMoves(1, id, newId, u) + [Go(0), Go(0)]);
            && AllMay(Traffic(m, map[]), moves)
            && var m' := AfterAll(Traffic(m, map[]), moves).m;
               && m'.flights == map[] && Hits(m'.pool, m'.now, id)
               && Lookup(m'.pool.recs[id], "userID") == Some(Text(u.id))
  {
    var open, rec, stored := Open(0, Some(id), newId, AsLogOut), m.pool.recs[id], m.pool.stored;
    assert Traffic(m, map[]) == Busy(m, id, rec, stored, map[]) by {
      assert m.pool.recs[id := rec] == m.pool.recs;
    }
    BusyOpen(m, id, rec, stored, map[], open);
    var rec1, plans := Untouched(rec), map[0 := Plan(AsLogOut)];
    assert map[][0 := Plan(AsLogOut)] == plans;
    BusyLogOut(m, id, LoggedIn(rec1, u), stored, 0);
    BusyLogIn(m, id, rec1, stored, plans, 1, newId, u, [Go(0), Go(0)]);
    AfterCons(Traffic(m, map[]), open, LogInMoves(1, id, newId, u) + [Go(0), Go(0)]);
  }

  // ---- the plans are the service's routes ----

  /** Request r midway: the pool, its flight and what remains of its plan. */
  function Midway(a: Traffic, p: Pool, f: Flight, r: nat, plan: seq<Action>): Traffic {
    Traffic(a.m.(pool := p, flights := a.m.flights[r := f]), a.plans[r := plan])
  }

  function PoolActed(p: Pool, f: Flight, action: Action): Pool
    requires f.id in p.recs
  {
    match action
    case Put(key, value) => PoolSet(p, f.id, key, value)
    case Keep => PoolSave(p, f.id)
    case Drop => PoolDestroy(p, f.cookie)
    case Close => PoolFinish(p, f.id)
    case Leave => p
  }

  lemma MidwayGo(a: Traffic, p: Pool, f: Flight, r: nat, plan: seq<Action>)
    requires f.id in p.recs && Rest(plan)
    ensures var b := Midway(a, p, f, r, plan);
            && May(b, Go(r)) && Moved(b, Go(r)).m.pool == PoolActed(p, f, plan[0])
            && (|plan| > 1 ==> Moved(b, Go(r)) == Midway(a, PoolActed(p, f, plan[0]), f, r, plan[1..]))
  {
    RestGoesOn(plan);
  }

  lemma MidwayOpen(a: Traffic, r: nat, cookie: Option<Id>, newId: Id, kind: Kind)
    requires May(a, Open(r, cookie, newId, kind))
    ensures var f := Flight(cookie, LoadedId(a.m.pool, a.m.now, cookie, newId));
            var p := PoolLoad(a.m.pool, a.m.now, a.m.maxAge, cookie, newId);
            f.id in p.recs && Moved(a, Open(r, cookie, newId, kind)) == Midway(a, p, f, r, Plan(kind))
  {
  }

  /** A profile or logout request that nothing interrupts leaves the pool that the service leaves. */
  lemma ClosingPlans(a: Traffic, r: nat, cookie: Option<Id>, newId: Id)
    requires May(a, Open(r, cookie, newId, AsProfile))
    ensures AllMay(a, [Open(r, cookie, newId, AsProfile), Go(r)])
    ensures AfterAll(a, [Open(r, cookie, newId, AsProfile), Go(r)]).m.pool
         == Profile(a.m.pool, a.m.now, a.m.maxAge, cookie, newId).pool
    ensures AllMay(a, [Open(r, cookie, newId, AsLogOut), Go(r), Go(r)])
    ensures AfterAll(a, [Open(r, cookie, newId, AsLogOut), Go(r), Go(r)]).m.pool
         == Logout(a.m.pool, a.m.now, a.m.maxAge, cookie, newId).pool
  {
    var f := Flight(cookie, LoadedId(a.m.pool, a.m.now, cookie, newId));
    var p := PoolLoad(a.m.pool, a.m.now, a.m.maxAge, cookie, newId);
    var profile, logout := Open(r, cookie, newId, AsProfile), Open(r, cookie, newId, AsLogOut);
    MidwayOpen(a, r, cookie, newId, AsProfile);
    MidwayGo(a, p, f, r, [Close]);
    AfterCons(Moved(a, profile), Go(r), []);
    AfterCons(a, profile, [Go(r)]);
    MidwayOpen(a, r, cookie, newId, AsLogOut);
    MidwayGo(a, p, f, r, [Drop, Close]);
    assert [Drop, Close][1..] == [Close];
    MidwayGo(a, PoolDestroy(p, cookie), f, r, [Close]);
    AfterCons(Moved(Moved(a, logout), Go(r)), Go(r), []);
    AfterCons(Moved(a, logout), Go(r), [Go(r)]);
    AfterCons(a, logout, [Go(r), Go(r)]);
  }

  /** So does an accepted login. */
  lemma LogInPlan(a: Traffic, r: nat, cookie: Option<Id>, newId: Id, users: map<string, User>, username: string)
    requires username in users && May(a, Open(r, cookie, newId, AsLogIn(users[username])))
    ensures var moves := [Open(r, cookie, newId, AsLogIn(users[username]))] + ([Go(r), Go(r), Go(r), Go(r)] + []);
            && AllMay(a, moves)
            && AfterAll(a, moves).m.pool
               == Login(a.m.pool, a.m.now, a.m.maxAge, users, cookie, newId, username, users[username].password).pool
  {
    var u := users[username];
    var open, plan := Open(r, cookie, newId, AsLogIn(u)), Plan(AsLogIn(u));
    var f := Flight(cookie, LoadedId(a.m.pool, a.m.now, cookie, newId));
    var p := PoolLoad(a.m.pool, a.m.now, a.m.maxAge, cookie, newId);
    MidwayOpen(a, r, cookie, newId, AsLogIn(u));
    var a1 := Moved(a, open);
    MidwayGo(a, p, f, r, plan);
    var p1 := PoolActed(p, f, plan[0]);
    MidwayGo(a, p1, f, r, plan[1..]);
    var p2 := PoolActed(p1, f, plan[1]);
    assert plan[1..][1..] == [Keep, Leave];
    MidwayGo(a, p2, f, r, [Keep, Leave]);
    assert [Keep, Leave][1..] == [Leave];
    MidwayGo(a, PoolSave(p2, f.id), f, r, [Leave]);
    var a2 := Moved(a1, Go(r));
    var a3 := Moved(a2, Go(r));
    FourMoves(a1, a2, a3, Moved(a3, Go(r)), Go(r), []);
    AfterCons(a, open, [Go(r), Go(r), Go(r), Go(r)] + []);
  }
}
