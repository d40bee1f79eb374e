/** The health registry's concurrent check: one goroutine per matching checker, a mutex around
    the shared report, and a wait group that the caller waits on.

    Goroutines, mutex and wait group are a state machine whose steps interleave freely; every
    complete schedule is proved to deliver the same summary. */
module Health {
  import opened Basics

  type Status = string

  const UP: Status := "up"
  const DOWN: Status := "down"

  type CheckType = bv64

  const READINESS: CheckType := 1
  const LIVENESS: CheckType := 2

  datatype CheckResult = CheckResult(status: Status, message: string)

  datatype Report = Report(status: Status, checks: map<string, CheckResult>)

  /** A registered checker, with what its Check returns in the call under consideration. */
  datatype Job = Job(name: string, result: CheckResult)

  datatype Entry = Entry(job: Job, types: CheckType)

  predicate Takes(e: Entry, typ: CheckType) {
    e.types & typ != 0
  }

  /** The entries that take part in a check, in registration order. */
  function Matching(entries: seq<Entry>, typ: CheckType): seq<Job> {
    if entries == [] then []
    else
      var init := Matching(entries[..|entries| - 1], typ);
      var last := entries[|entries| - 1];
      if Takes(last, typ) then init + [last.job] else init
  }

  // ---- the goroutines ----

  /** Where a goroutine is: not spawned, before its Check returns, before taking the mutex,
      holding it (before, between and after its two writes), and on its way to wg.Done. */
  datatype Pc = Unborn | Checking | Checked | Locked | Recorded | Counted | Unlocked | Done

  datatype State = State(pcs: seq<Pc>, spawned: nat, wg: nat, owner: Option<nat>, report: Report, joined: bool)

  datatype Step = Spawn | Go(i: nat) | Join

  function Start(n: nat): State {
    State(seq(n, _ => Unborn), 0, 0, None, Report(UP, map[]), false)
  }

  predicate Enabled(jobs: seq<Job>, s: State, st: Step) {
    |s.pcs| == |jobs| && !s.joined &&
    match st
    case Spawn => s.spawned < |s.pcs|
    case Go(i) =>
      && i < |s.pcs| && s.pcs[i] != Unborn && s.pcs[i] != Done
      && (s.pcs[i] == Checked ==> s.owner == None)
      && (s.pcs[i] == Unlocked ==> s.wg > 0)
    case Join => s.spawned == |s.pcs| && s.wg == 0
  }

  function Advance(jobs: seq<Job>, s: State, i: nat): State
    requires Enabled(jobs, s, Go(i))
  {
    match s.pcs[i]
    case Checking => s.(pcs := s.pcs[i := Checked])
    case Checked => s.(pcs := s.pcs[i := Locked], owner := Some(i))
    case Locked =>
      s.(pcs := s.pcs[i := Recorded],
         report := s.report.(checks := s.report.checks[jobs[i].name := jobs[i].result]))
    case Recorded =>
      s.(pcs := s.pcs[i := Counted],
         report := if jobs[i].result.status == DOWN then s.report.(status := DOWN) else s.report)
    case Counted => s.(pcs := s.pcs[i := Unlocked], owner := None)
    case Unlocked => s.(pcs := s.pcs[i := Done], wg := s.wg - 1)
  }

  function Next(jobs: seq<Job>, s: State, st: Step): State
    requires Enabled(jobs, s, st)
  {
    match st
    case Spawn => s.(pcs := s.pcs[s.spawned := Checking], spawned := s.spawned + 1, wg := s.wg + 1)
    case Go(i) => Advance(jobs, s, i)
    case Join => s.(joined := true)
  }

  predicate Runs(jobs: seq<Job>, s: State, sched: seq<Step>)
    decreases |sched|
  {
    sched == [] || (Enabled(jobs, s, sched[0]) && Runs(jobs, Next(jobs, s, sched[0]), sched[1..]))
  }

  function Run(jobs: seq<Job>, s: State, sched: seq<Step>): State
    requires Runs(jobs, s, sched)
    decreases |sched|
  {
    if sched == [] then s else Run(jobs, Next(jobs, s, sched[0]), sched[1..])
  }

  // ---- sums over the goroutines ----

  /** Steps a goroutine has left, its spawning included. */
  function StepsLeft(pc: Pc): nat {
    match pc
    case Unborn => 7
    case Checking => 6
    case Checked => 5
    case Locked => 4
    case Recorded => 3
    case Counted => 2
    case Unlocked => 1
    case Done => 0
  }

  /** A goroutine's share of the wait group. */
  function Pending(pc: Pc): nat {
    if pc == Unborn || pc == Done then 0 else 1
  }

  function Total(weight: Pc -> nat, pcs: seq<Pc>): nat {
    if pcs == [] then 0 else weight(pcs[0]) + Total(weight, pcs[1..])
  }

  lemma {:induction false} TotalUpdate(weight: Pc -> nat, pcs: seq<Pc>, i: nat, pc: Pc)
    requires i < |pcs|
    ensures Total(weight, pcs[i := pc]) == Total(weight, pcs) - weight(pcs[i]) + weight(pc)
  {
    if i == 0 {
      assert pcs[i := pc][1..] == pcs[1..];
    } else {
      assert pcs[i := pc][1..] == pcs[1..][i - 1 := pc];
      TotalUpdate(weight, pcs[1..], i - 1, pc);
    }
  }

  lemma {:induction false} TotalAtLeast(weight: Pc -> nat, pcs: seq<Pc>, i: nat)
    requires i < |pcs|
    ensures Total(weight, pcs) >= weight(pcs[i])
  {
    if i > 0 {
      TotalAtLeast(weight, pcs[1..], i - 1);
    }
  }

  lemma {:induction false} TotalOf(weight: Pc -> nat, pcs: seq<Pc>, pc: Pc)
    requires forall i :: 0 <= i < |pcs| ==> pcs[i] == pc
    ensures Total(weight, pcs) == |pcs| * weight(pc)
  {
    if pcs != [] {
      TotalOf(weight, pcs[1..], pc);
      assert |pcs| * weight(pc) == (|pcs| - 1) * weight(pc) + weight(pc);
    }
  }

  // ---- what holds at every moment ----

  predicate HasRecorded(pc: Pc) {
    pc == Recorded || pc == Counted || pc == Unlocked || pc == Done
  }

  predicate HasCounted(pc: Pc) {
    pc == Counted || pc == Unlocked || pc == Done
  }

  predicate Holds(pc: Pc) {
    pc == Locked || pc == Recorded || pc == Counted
  }

  /** The wait group counts the unfinished goroutines. */
  ghost predicate WgOk(s: State) {
    s.wg == Total(Pending, s.pcs)
  }

  /** The mutex has at most one holder, and the wait has not returned early. */
  ghost predicate ControlOk(n: nat, s: State) {
    && |s.pcs| == n && s.spawned <= n
    && (forall i :: 0 <= i < n ==> (i < s.spawned <==> s.pcs[i] != Unborn))
    && (s.owner.Some? ==> s.owner.value < n)
    && (forall i :: 0 <= i < n ==> (Holds(s.pcs[i]) <==> s.owner == Some(i)))
    && (s.joined ==> forall i :: 0 <= i < n ==> s.pcs[i] == Done)
  }

  /** Goroutine i has recorded `result` under `name`. */
  ghost predicate Wrote(jobs: seq<Job>, s: State, i: int, name: string, result: CheckResult) {
    0 <= i < |jobs| && i < |s.pcs| && HasRecorded(s.pcs[i]) && jobs[i] == Job(name, result)
  }

  ghost predicate ChecksOk(jobs: seq<Job>, s: State) {
    && (forall i :: 0 <= i < |jobs| && i < |s.pcs| && HasRecorded(s.pcs[i]) ==> jobs[i].name in s.report.checks)
    && (forall name <- s.report.checks :: exists i :: Wrote(jobs, s, i, name, s.report.checks[name]))
  }

  /** Goroutine i has counted a Down result. */
  ghost predicate SawDown(jobs: seq<Job>, s: State, i: int) {
    0 <= i < |jobs| && i < |s.pcs| && HasCounted(s.pcs[i]) && jobs[i].result.status == DOWN
  }

  ghost predicate StatusOk(jobs: seq<Job>, s: State) {
    s.report.status == if exists i :: SawDown(jobs, s, i) then DOWN else UP
  }

  /** The report describes exactly the goroutines that have written it. */
  ghost predicate Valid(jobs: seq<Job>, s: State) {
    ControlOk(|jobs|, s) && WgOk(s) && ChecksOk(jobs, s) && StatusOk(jobs, s)
  }

  /** What is left to do: each step, whatever it is, does exactly one unit of it. */
  ghost function Remaining(s: State): nat {
    Total(StepsLeft, s.pcs) + if s.joined then 0 else 1
  }

  lemma StartValid(jobs: seq<Job>)
    ensures Valid(jobs, Start(|jobs|)) && Remaining(Start(|jobs|)) == 7 * |jobs| + 1
  {
    TotalOf(Pending, Start(|jobs|).pcs, Unborn);
    TotalOf(StepsLeft, Start(|jobs|).pcs, Unborn);
  }

  lemma {:induction false} NonePending(pcs: seq<Pc>)
    requires Total(Pending, pcs) == 0
    ensures forall i :: 0 <= i < |pcs| ==> pcs[i] == Unborn || pcs[i] == Done
  {
    forall i | 0 <= i < |pcs|
      ensures pcs[i] == Unborn || pcs[i] == Done
    {
      TotalAtLeast(Pending, pcs, i);
    }
  }

  /** A step that records nothing. */
  lemma ChecksKept(jobs: seq<Job>, s: State, s': State)
    requires ChecksOk(jobs, s) && s'.report.checks == s.report.checks && |s.pcs| == |s'.pcs| == |jobs|
    requires forall j :: 0 <= j < |jobs| ==> HasRecorded(s'.pcs[j]) == HasRecorded(s.pcs[j])
    ensures ChecksOk(jobs, s')
  {
    forall name <- s'.report.checks
      ensures exists j :: Wrote(jobs, s', j, name, s'.report.checks[name])
    {
      var j :| Wrote(jobs, s, j, name, s.report.checks[name]);
      assert Wrote(jobs, s', j, name, s'.report.checks[name]);
    }
  }

  /** A step that counts nothing. */
  lemma StatusKept(jobs: seq<Job>, s: State, s': State)
    requires StatusOk(jobs, s) && s'.report.status == s.report.status && |s.pcs| == |s'.pcs| == |jobs|
    requires forall j :: 0 <= j < |jobs| ==> HasCounted(s'.pcs[j]) == HasCounted(s.pcs[j])
    ensures StatusOk(jobs, s')
  {
    assert forall j :: SawDown(jobs, s, j) <==> SawDown(jobs, s', j);
  }

  lemma RecordChecks(jobs: seq<Job>, s: State, i: nat)
    requires ChecksOk(jobs, s) && Enabled(jobs, s, Go(i)) && s.pcs[i] == Locked
    ensures ChecksOk(jobs, Advance(jobs, s, i))
  {
    var s' := Advance(jobs, s, i);
    forall name <- s'.report.checks
      ensures exists j :: Wrote(jobs, s', j, name, s'.report.checks[name])
    {
      if name == jobs[i].name {
        assert Wrote(jobs, s', i, name, s'.report.checks[name]);
      } else {
        var j :| Wrote(jobs, s, j, name, s.report.checks[name]);
        assert Wrote(jobs, s', j, name, s'.report.checks[name]);
      }
    }
  }

  lemma CountStatus(jobs: seq<Job>, s: State, i: nat)
    requires StatusOk(jobs, s) && Enabled(jobs, s, Go(i)) && s.pcs[i] == Recorded
    ensures StatusOk(jobs, Advance(jobs, s, i))
  {
    var s' := Advance(jobs, s, i);
    assert forall j :: j != i ==> (SawDown(jobs, s, j) <==> SawDown(jobs, s', j));
    assert !SawDown(jobs, s, i) && (SawDown(jobs, s', i) <==> jobs[i].result.status == DOWN);
  }

  lemma GoTotals(jobs: seq<Job>, s: State, i: nat)
    requires WgOk(s) && Enabled(jobs, s, Go(i))
    ensures WgOk(Advance(jobs, s, i)) && Remaining(Advance(jobs, s, i)) == Remaining(s) - 1
  {
    var s' := Advance(jobs, s, i);
    TotalUpdate(Pending, s.pcs, i, s'.pcs[i]);
    TotalUpdate(StepsLeft, s.pcs, i, s'.pcs[i]);
    assert s'.pcs == s.pcs[i := s'.pcs[i]];
  }

  lemma GoControl(jobs: seq<Job>, s: State, i: nat)
    requires ControlOk(|jobs|, s) && Enabled(jobs, s, Go(i))
    ensures ControlOk(|jobs|, Advance(jobs, s, i))
  {
  }

  lemma GoChecks(jobs: seq<Job>, s: State, i: nat)
    requires ChecksOk(jobs, s) && Enabled(jobs, s, Go(i))
    ensures ChecksOk(jobs, Advance(jobs, s, i))
  {
    if s.pcs[i] == Locked {
      RecordChecks(jobs, s, i);
    } else {
      ChecksKept(jobs, s, Advance(jobs, s, i));
    }
  }

  lemma GoStatus(jobs: seq<Job>, s: State, i: nat)
    requires StatusOk(jobs, s) && Enabled(jobs, s, Go(i))
    ensures StatusOk(jobs, Advance(jobs, s, i))
  {
    if s.pcs[i] == Recorded {
      CountStatus(jobs, s, i);
    } else {
      StatusKept(jobs, s, Advance(jobs, s, i));
    }
  }

  lemma GoValid(jobs: seq<Job>, s: State, i: nat)
    requires Valid(jobs, s) && Enabled(jobs, s, Go(i))
    ensures Valid(jobs, Advance(jobs, s, i))
    ensures Remaining(Advance(jobs, s, i)) == Remaining(s) - 1
  {
    GoTotals(jobs, s, i);
    GoControl(jobs, s, i);
    GoChecks(jobs, s, i);
    GoStatus(jobs, s, i);
  }

  lemma NextValid(jobs: seq<Job>, s: State, st: Step)
    requires Valid(jobs, s) && Enabled(jobs, s, st)
    ensures Valid(jobs, Next(jobs, s, st))
    ensures Remaining(Next(jobs, s, st)) == Remaining(s) - 1
  {
    match st
    case Spawn =>
      TotalUpdate(Pending, s.pcs, s.spawned, Checking);
      TotalUpdate(StepsLeft, s.pcs, s.spawned, Checking);
      ChecksKept(jobs, s, Next(jobs, s, st));
      StatusKept(jobs, s, Next(jobs, s, st));
    case Go(i) => GoValid(jobs, s, i);
    case Join =>
      NonePending(s.pcs);
      ChecksKept(jobs, s, Next(jobs, s, st));
      StatusKept(jobs, s, Next(jobs, s, st));
  }

  /** At every moment of every schedule the report summarises the goroutines that have
      written it, and the length of the schedule is determined by how far it has got. */
  lemma {:induction false} RunValid(jobs: seq<Job>, s: State, sched: seq<Step>)
    requires Valid(jobs, s) && Runs(jobs, s, sched)
    ensures Valid(jobs, Run(jobs, s, sched))
    ensures Remaining(Run(jobs, s, sched)) + |sched| == Remaining(s)
    decreases |sched|
  {
    if sched != [] {
      NextValid(jobs, s, sched[0]);
      RunValid(jobs, Next(jobs, s, sched[0]), sched[1..]);
    }
  }

  /** Until the wait returns there is always a step to take: no deadlock. */
  lemma SomeStepEnabled(jobs: seq<Job>, s: State) returns (st: Step)
    requires Valid(jobs, s) && !s.joined
    ensures Enabled(jobs, s, st)
  {
    if s.spawned < |jobs| {
      return Spawn;
    }
    if s.wg == 0 {
      return Join;
    }
    if s.owner.Some? {
      TotalAtLeast(Pending, s.pcs, s.owner.value);
      return Go(s.owner.value);
    }
    var i := PendingOne(s.pcs);
    return Go(i);
  }

  lemma {:induction false} PendingOne(pcs: seq<Pc>) returns (i: nat)
    requires Total(Pending, pcs) > 0
    ensures i < |pcs| && pcs[i] != Unborn && pcs[i] != Done
  {
    if Pending(pcs[0]) > 0 {
      return 0;
    }
    var k := PendingOne(pcs[1..]);
    return k + 1;
  }

  // ---- the summary ----

  /** Down iff some checker is down; one of the results under each name, and no other name. */
  ghost predicate Summarises(jobs: seq<Job>, r: Report) {
    && r.status == (if exists i :: 0 <= i < |jobs| && jobs[i].result.status == DOWN then DOWN else UP)
    && (forall i :: 0 <= i < |jobs| ==> jobs[i].name in r.checks)
    && (forall name <- r.checks :: Job(name, r.checks[name]) in jobs)
  }

  lemma JoinedSummarises(jobs: seq<Job>, s: State)
    requires Valid(jobs, s) && s.joined
    ensures Summarises(jobs, s.report)
  {
    forall i | 0 <= i < |jobs|
      ensures SawDown(jobs, s, i) <==> jobs[i].result.status == DOWN
    {
    }
    forall name <- s.report.checks
      ensures Job(name, s.report.checks[name]) in jobs
    {
      var i :| Wrote(jobs, s, i, name, s.report.checks[name]);
    }
  }

  ghost predicate Complete(jobs: seq<Job>, sched: seq<Step>) {
    Runs(jobs, Start(|jobs|), sched) && Run(jobs, Start(|jobs|), sched).joined
  }

  /** The wait has returned exactly when nothing is left to do and no step is possible. */
  lemma AtRest(jobs: seq<Job>, s: State)
    requires Valid(jobs, s)
    ensures s.joined <==> Remaining(s) == 0
    ensures s.joined <==> forall st: Step :: !Enabled(jobs, s, st)
  {
    if s.joined {
      TotalOf(StepsLeft, s.pcs, Done);
    } else {
      var st := SomeStepEnabled(jobs, s);
    }
  }

  /** Every complete schedule has the same length and delivers a summary; one that cannot be
      extended is complete. */
  lemma EveryScheduleSummarises(jobs: seq<Job>, sched: seq<Step>)
    requires Runs(jobs, Start(|jobs|), sched)
    ensures var s := Run(jobs, Start(|jobs|), sched);
            && |sched| <= 7 * |jobs| + 1
            && (s.joined <==> |sched| == 7 * |jobs| + 1)
            && (s.joined <==> forall st: Step :: !Enabled(jobs, s, st))
            && (s.joined ==> Summarises(jobs, s.report))
  {
    var s := Run(jobs, Start(|jobs|), sched);
    StartValid(jobs);
    RunValid(jobs, Start(|jobs|), sched);
    AtRest(jobs, s);
    if s.joined {
      JoinedSummarises(jobs, s);
    }
  }

  /** No two checkers with one name disagree. */
  ghost predicate Consistent(jobs: seq<Job>) {
    forall i, j :: 0 <= i < |jobs| && 0 <= j < |jobs| && jobs[i].name == jobs[j].name ==>
      jobs[i].result == jobs[j].result
  }

  ghost predicate ScheduleIndependent(jobs: seq<Job>) {
    forall a: seq<Step>, b: seq<Step> :: Complete(jobs, a) && Complete(jobs, b) ==>
      Run(jobs, Start(|jobs|), a).report == Run(jobs, Start(|jobs|), b).report
  }

  ghost predicate Reported(job: Job, r: Report) {
    job.name in r.checks && r.checks[job.name] == job.result
  }

  lemma SummaryIsUnique(jobs: seq<Job>, r: Report, r': Report)
    requires Summarises(jobs, r) && Summarises(jobs, r')
    ensures r.status == r'.status && r.checks.Keys == r'.checks.Keys
    ensures Consistent(jobs) ==> r == r'
  {
    assert r.checks.Keys == r'.checks.Keys by {
      forall name <- r.checks ensures name in r'.checks {
        var i :| 0 <= i < |jobs| && jobs[i] == Job(name, r.checks[name]);
      }
      forall name <- r'.checks ensures name in r.checks {
        var i :| 0 <= i < |jobs| && jobs[i] == Job(name, r'.checks[name]);
      }
    }
    if Consistent(jobs) {
      forall name <- r.checks
        ensures r.checks[name] == r'.checks[name]
      {
        var i :| 0 <= i < |jobs| && jobs[i] == Job(name, r.checks[name]);
        var j :| 0 <= j < |jobs| && jobs[j] == Job(name, r'.checks[name]);
      }
      assert r.checks == r'.checks;
    }
  }

  /** Without disagreement, in particular with distinct names, Checks is exactly the map from
      each matching checker's name to its result. */
  lemma EveryResultIsReported(jobs: seq<Job>, r: Report, i: nat)
    requires Summarises(jobs, r) && Consistent(jobs) && i < |jobs|
    ensures Reported(jobs[i], r)
  {
    var name := jobs[i].name;
    var j :| 0 <= j < |jobs| && jobs[j] == Job(name, r.checks[name]);
  }

  // ---- a schedule that lets a chosen goroutine write last ----

  function Repeat(st: Step, n: nat): seq<Step> {
    if n == 0 then [] else [st] + Repeat(st, n - 1)
  }

  function Turns(order: seq<nat>): seq<Step> {
    if order == [] then [] else Repeat(Go(order[0]), 6) + Turns(order[1..])
  }

  function Others(n: nat, i: nat): seq<nat> {
    if n == 0 then [] else Others(n - 1, i) + if n - 1 == i then [] else [n - 1]
  }

  lemma {:induction false} RunAppend(jobs: seq<Job>, s: State, a: seq<Step>, b: seq<Step>)
    requires Runs(jobs, s, a) && Runs(jobs, Run(jobs, s, a), b)
    ensures Runs(jobs, s, a + b) && Run(jobs, s, a + b) == Run(jobs, Run(jobs, s, a), b)
    decreases |a|
  {
    if a == [] {
      assert a + b == b;
    } else {
      assert (a + b)[1..] == a[1..] + b;
      RunAppend(jobs, Next(jobs, s, a[0]), a[1..], b);
    }
  }

  lemma RunOne(jobs: seq<Job>, s: State, st: Step, rest: seq<Step>)
    requires Enabled(jobs, s, st) && Runs(jobs, Next(jobs, s, st), rest)
    ensures Runs(jobs, s, [st] + rest) && Run(jobs, s, [st] + rest) == Run(jobs, Next(jobs, s, st), rest)
  {
    assert ([st] + rest)[1..] == rest;
  }

  lemma {:induction false} SpawnAll(jobs: seq<Job>, s: State)
    requires Valid(jobs, s) && !s.joined && forall i :: 0 <= i < s.spawned ==> s.pcs[i] == Checking
    ensures var sched := Repeat(Spawn, |jobs| - s.spawned);
            && Runs(jobs, s, sched)
            && var s' := Run(jobs, s, sched);
               && Valid(jobs, s') && !s'.joined && s'.spawned == |jobs|
               && forall i :: 0 <= i < |jobs| ==> s'.pcs[i] == Checking
    decreases |jobs| - s.spawned
  {
    if s.spawned < |jobs| {
      NextValid(jobs, s, Spawn);
      SpawnAll(jobs, Next(jobs, s, Spawn));
      RunOne(jobs, s, Spawn, Repeat(Spawn, |jobs| - s.spawned - 1));
    }
  }

  /** All spawned, and nobody holds the mutex. */
  ghost predicate Idle(jobs: seq<Job>, s: State) {
    && Valid(jobs, s) && !s.joined && s.spawned == |jobs|
    && forall i :: 0 <= i < |jobs| ==> s.pcs[i] == Checking || s.pcs[i] == Done
  }

  /** Goroutine i is on its way and all others pause. */
  ghost predicate MidTurn(jobs: seq<Job>, s: State, i: nat) {
    && Valid(jobs, s) && !s.joined && s.spawned == |jobs| && i < |jobs|
    && (forall j :: 0 <= j < |jobs| && j != i ==> s.pcs[j] == Checking || s.pcs[j] == Done)
    && (HasRecorded(s.pcs[i]) ==> Reported(jobs[i], s.report))
  }

  lemma MidTurnEnabled(jobs: seq<Job>, s: State, i: nat)
    requires MidTurn(jobs, s, i) && s.pcs[i] != Done
    ensures Enabled(jobs, s, Go(i))
  {
    TotalAtLeast(Pending, s.pcs, i);
    if s.owner.Some? {
      assert Holds(s.pcs[s.owner.value]);
    }
  }

  lemma AdvanceShape(jobs: seq<Job>, s: State, i: nat)
    requires Enabled(jobs, s, Go(i))
    ensures var s' := Advance(jobs, s, i);
            && s'.pcs == s.pcs[i := s'.pcs[i]]
            && StepsLeft(s'.pcs[i]) == StepsLeft(s.pcs[i]) - 1
            && s'.spawned == s.spawned && !s'.joined
            && (HasRecorded(s'.pcs[i]) ==>
                  s.pcs[i] == Locked || Reported(jobs[i], s.report) ==> Reported(jobs[i], s'.report))
  {
  }

  lemma MidTurnNext(jobs: seq<Job>, s: State, i: nat)
    requires MidTurn(jobs, s, i) && s.pcs[i] != Done
    ensures Enabled(jobs, s, Go(i))
    ensures var s' := Next(jobs, s, Go(i));
            && MidTurn(jobs, s', i)
            && s'.pcs == s.pcs[i := s'.pcs[i]]
            && StepsLeft(s'.pcs[i]) == StepsLeft(s.pcs[i]) - 1
  {
    MidTurnEnabled(jobs, s, i);
    AdvanceShape(jobs, s, i);
    GoValid(jobs, s, i);
  }

  /** One goroutine runs to its end while the others pause. */
  lemma {:induction false} TakeTurn(jobs: seq<Job>, s: State, i: nat)
    requires MidTurn(jobs, s, i)
    ensures var sched := Repeat(Go(i), StepsLeft(s.pcs[i]));
            && Runs(jobs, s, sched)
            && var s' := Run(jobs, s, sched);
               MidTurn(jobs, s', i) && s'.pcs == s.pcs[i := Done]
    decreases StepsLeft(s.pcs[i])
  {
    if s.pcs[i] == Done {
      assert s.pcs[i := Done] == s.pcs;
    } else {
      MidTurnNext(jobs, s, i);
      var s' := Next(jobs, s, Go(i));
      var left := StepsLeft(s'.pcs[i]);
      assert StepsLeft(s.pcs[i]) == left + 1;
      TakeTurn(jobs, s', i);
      RunOne(jobs, s, Go(i), Repeat(Go(i), left));
      assert Repeat(Go(i), left + 1) == [Go(i)] + Repeat(Go(i), left);
      assert s'.pcs[i := Done] == s.pcs[i := Done];
    }
  }

  lemma IdleTurn(jobs: seq<Job>, s: State, i: nat)
    requires Idle(jobs, s) && i < |jobs| && s.pcs[i] == Checking
    ensures Runs(jobs, s, Repeat(Go(i), 6))
    ensures var s' := Run(jobs, s, Repeat(Go(i), 6)); Idle(jobs, s') && s'.pcs == s.pcs[i := Done]
  {
    TakeTurn(jobs, s, i);
  }

  lemma {:induction false} TakeTurns(jobs: seq<Job>, s: State, order: seq<nat>)
    requires Idle(jobs, s)
    requires forall k :: 0 <= k < |order| ==> order[k] < |jobs| && s.pcs[order[k]] == Checking
    requires forall k, l :: 0 <= k < l < |order| ==> order[k] != order[l]
    ensures Runs(jobs, s, Turns(order))
    ensures var s' := Run(jobs, s, Turns(order));
            && Idle(jobs, s')
            && forall i :: 0 <= i < |jobs| ==> s'.pcs[i] == if i in order then Done else s.pcs[i]
    decreases |order|
  {
    if order != [] {
      var first, rest := Repeat(Go(order[0]), 6), order[1..];
      IdleTurn(jobs, s, order[0]);
      var s1 := Run(jobs, s, first);
      assert forall k :: 0 <= k < |rest| ==> rest[k] == order[k + 1];
      TakeTurns(jobs, s1, rest);
      RunAppend(jobs, s, first, Turns(rest));
      assert forall i: nat :: i in order <==> i == order[0] || i in rest;
    }
  }

  lemma OthersDone(jobs: seq<Job>, i: nat) returns (sched: seq<Step>)
    requires i < |jobs|
    ensures Runs(jobs, Start(|jobs|), sched)
    ensures var s := Run(jobs, Start(|jobs|), sched);
            Idle(jobs, s) && s.pcs[i] == Checking && forall j :: 0 <= j < |jobs| && j != i ==> s.pcs[j] == Done
  {
    StartValid(jobs);
    SpawnAll(jobs, Start(|jobs|));
    OthersAre(|jobs|, i);
    var s1 := Run(jobs, Start(|jobs|), Repeat(Spawn, |jobs|));
    TakeTurns(jobs, s1, Others(|jobs|, i));
    RunAppend(jobs, Start(|jobs|), Repeat(Spawn, |jobs|), Turns(Others(|jobs|, i)));
    sched := Repeat(Spawn, |jobs|) + Turns(Others(|jobs|, i));
  }

  lemma {:induction false} OthersAre(n: nat, i: nat)
    ensures forall k :: 0 <= k < |Others(n, i)| ==> Others(n, i)[k] < n && Others(n, i)[k] != i
    ensures forall k, l :: 0 <= k < l < |Others(n, i)| ==> Others(n, i)[k] != Others(n, i)[l]
    ensures forall j :: 0 <= j < n && j != i ==> j in Others(n, i)
  {
    if n > 0 {
      OthersAre(n - 1, i);
    }
  }

  lemma LastOne(jobs: seq<Job>, s: State, i: nat)
    requires Idle(jobs, s) && i < |jobs| && s.pcs[i] == Checking
    requires forall j :: 0 <= j < |jobs| && j != i ==> s.pcs[j] == Done
    ensures var sched := Repeat(Go(i), 6) + [Join];
            && Runs(jobs, s, sched)
            && var r := Run(jobs, s, sched).report;
               Run(jobs, s, sched).joined && Reported(jobs[i], r)
  {
    TakeTurn(jobs, s, i);
    var s' := Run(jobs, s, Repeat(Go(i), 6));
    assert forall j :: 0 <= j < |jobs| ==> s'.pcs[j] == Done;
    assert s'.wg == 0 by {
      TotalOf(Pending, s'.pcs, Done);
      assert Pending(Done) == 0;
    }
    assert HasRecorded(s'.pcs[i]);
    RunOne(jobs, s', Join, []);
    assert [Join] + [] == [Join];
    RunAppend(jobs, s, Repeat(Go(i), 6), [Join]);
  }

  /** Any checker can be the last to write: some complete schedule reports its result. */
  lemma SomeScheduleReports(jobs: seq<Job>, i: nat) returns (sched: seq<Step>)
    requires i < |jobs|
    ensures Complete(jobs, sched)
    ensures Reported(jobs[i], Run(jobs, Start(|jobs|), sched).report)
  {
    var a := OthersDone(jobs, i);
    var s := Run(jobs, Start(|jobs|), a);
    LastOne(jobs, s, i);
    RunAppend(jobs, Start(|jobs|), a, Repeat(Go(i), 6) + [Join]);
    sched := a + (Repeat(Go(i), 6) + [Join]);
  }

  /** The report is the same for every schedule exactly when checkers that share a name agree;
      in particular when names are distinct. */
  lemma ScheduleIndependentIff(jobs: seq<Job>)
    ensures ScheduleIndependent(jobs) <==> Consistent(jobs)
  {
    if Consistent(jobs) {
      forall a: seq<Step>, b: seq<Step> | Complete(jobs, a) && Complete(jobs, b)
        ensures Run(jobs, Start(|jobs|), a).report == Run(jobs, Start(|jobs|), b).report
      {
        EveryScheduleSummarises(jobs, a);
        EveryScheduleSummarises(jobs, b);
        SummaryIsUnique(jobs, Run(jobs, Start(|jobs|), a).report, Run(jobs, Start(|jobs|), b).report);
      }
    } else {
      var i, j :| 0 <= i < |jobs| && 0 <= j < |jobs|
                  && jobs[i].name == jobs[j].name && jobs[i].result != jobs[j].result;
      var a := SomeScheduleReports(jobs, i);
      var b := SomeScheduleReports(jobs, j);
      assert Complete(jobs, a) && Complete(jobs, b);
      assert Run(jobs, Start(|jobs|), a).report != Run(jobs, Start(|jobs|), b).report;
    }
  }

  // ---- the registry ----

  /** What registering for a type means, for the reports; the code's own test is `Takes`. */
  ghost predicate IsFor(e: Entry, typ: CheckType) {
    e.types & typ != 0
  }

  /** The entries registered for the type. */
  ghost function Registered(entries: seq<Entry>, typ: CheckType): set<Entry> {
    set e | e in entries && IsFor(e, typ)
  }

  /** Down exactly when one of the checkers is; exactly their names; and under each name the result
      of one of them. */
  ghost predicate Reports(those: set<Entry>, r: Report) {
    && r.status == (if exists e <- those :: e.job.result.status == "down" then "down" else "up")
    && (forall name: string :: name in r.checks <==> exists e <- those :: e.job.name == name)
    && (forall name <- r.checks :: exists e <- those :: e.job.name == name && e.job.result == r.checks[name])
  }

  lemma RegisteredSplit(init: seq<Entry>, last: Entry, typ: CheckType)
    ensures Registered(init + [last], typ) == Registered(init, typ) + if IsFor(last, typ) then {last} else {}
  {
  }

  lemma {:induction false} InMatchingIff(entries: seq<Entry>, typ: CheckType, job: Job)
    ensures job in Matching(entries, typ) <==> exists e <- Registered(entries, typ) :: e.job == job
  {
    if entries != [] {
      var init, last := entries[..|entries| - 1], entries[|entries| - 1];
      assert entries == init + [last];
      InMatchingIff(init, typ, job);
      RegisteredSplit(init, last, typ);
      var those, earlier := Registered(entries, typ), Registered(init, typ);
      OneMoreJob(earlier, those, last, IsFor(last, typ), job);
      assert Takes(last, typ) <==> IsFor(last, typ);
    }
  }

  lemma OneMoreJob(earlier: set<Entry>, those: set<Entry>, last: Entry, taken: bool, job: Job)
    requires those == earlier + if taken then {last} else {}
    ensures (exists e <- those :: e.job == job) <==> (exists e <- earlier :: e.job == job) || (taken && last.job == job)
  {
    if e :| e in earlier && e.job == job {
      assert e in those;
    }
    if taken && last.job == job {
      assert last in those;
    }
  }

  lemma SummaryReports(those: set<Entry>, jobs: seq<Job>, r: Report)
    requires Summarises(jobs, r) && forall job: Job :: job in jobs <==> exists e <- those :: e.job == job
    ensures Reports(those, r)
  {
    forall name: string
      ensures name in r.checks <==> exists e <- those :: e.job.name == name
    {
      if name in r.checks {
        assert Job(name, r.checks[name]) in jobs;
      }
      if e :| e in those && e.job.name == name {
        assert e.job in jobs;
      }
    }
    forall name <- r.checks
      ensures exists e <- those :: e.job.name == name && e.job.result == r.checks[name]
    {
      assert Job(name, r.checks[name]) in jobs;
    }
    if i :| 0 <= i < |jobs| && jobs[i].result.status == DOWN {
      assert jobs[i] in jobs;
    }
    if e :| e in those && e.job.result.status == "down" {
      assert e.job in jobs;
    }
  }

  /** A checker registered for both types takes part in both checks; one registered for a single
      type takes part in that one and not in the other. */
  lemma TypesSelect(entries: seq<Entry>, e: Entry)
    requires e in entries
    ensures e.types == READINESS | LIVENESS ==> e in Registered(entries, 1) && e in Registered(entries, 2)
    ensures e.types == READINESS ==> e in Registered(entries, 1) && e !in Registered(entries, 2)
    ensures e.types == LIVENESS ==> e !in Registered(entries, 1) && e in Registered(entries, 2)
  {
  }

  class Registry {
    var entries: seq<Entry>

    constructor ()
      ensures entries == []
    {
      entries := [];
    }

    method Register(job: Job, types: CheckType)
      modifies this
      ensures entries == old(entries) + [Entry(job, types)]
    {
      entries := entries + [Entry(job, types)];
    }

    method CheckLiveness() returns (report: Report)
      ensures Reports(Registered(entries, 2), report)
    {
      report := Check(LIVENESS);
    }

    method CheckReadiness() returns (report: Report)
      ensures Reports(Registered(entries, 1), report)
    {
      report := Check(READINESS);
    }

    /** Runs the matching checkers under an arbitrary schedule. */
    method Check(typ: CheckType) returns (report: Report)
      ensures Reports(Registered(entries, typ), report) && Summarises(Matching(entries, typ), report)
    {
      var matched := [];
      for k := 0 to |entries|
        invariant matched == Matching(entries[..k], typ)
      {
        assert entries[..k + 1][..k] == entries[..k];
        if Takes(entries[k], typ) {
          matched := matched + [entries[k].job];
        }
      }
      assert entries[..|entries|] == entries;
      if |matched| == 0 {
        report := Report(UP, map[]);
      } else {
        report := FanOut(matched);
      }
      forall job: Job
        ensures job in matched <==> exists e <- Registered(entries, typ) :: e.job == job
      {
        InMatchingIff(entries, typ, job);
      }
      SummaryReports(Registered(entries, typ), matched, report);
    }
  }

  /** Spawns a goroutine per job and waits, under an arbitrary schedule. */
  method FanOut(jobs: seq<Job>) returns (report: Report)
    ensures Summarises(jobs, report)
  {
    var s := Start(|jobs|);
    StartValid(jobs);
    while !s.joined
      invariant Valid(jobs, s)
      decreases Remaining(s)
    {
      ghost var some := SomeStepEnabled(jobs, s);
      assert Enabled(jobs, s, some);
      var st: Step :| Enabled(jobs, s, st);
      NextValid(jobs, s, st);
      s := Next(jobs, s, st);
    }
    JoinedSummarises(jobs, s);
    report := s.report;
  }
}
