/** The job scheduler: a table from names to cron entries that mirrors the cron engine. */
module Scheduling {
  import opened Basics

  type EntryID = nat

  /** A schedule expression and the function it runs. */
  datatype Task = Task(spec: string, run: nat)

  /** The cron engine: live entries under ids that are never reused.  Whether an expression
      parses is up to its parser, whose verdict is passed in. */
  class Cron {
    var entries: map<EntryID, Task>
    var nextID: EntryID
    var running: bool

    constructor ()
      ensures entries == map[] && !running && nextID == 0
    {
      entries := map[];
      nextID := 0;
      running := false;
    }

    /** AddFunc once the expression has been parsed. */
    method Schedule(task: Task) returns (id: EntryID)
      modifies `entries, `nextID
      ensures id == nextID == old(nextID) + 1 && entries == old(entries)[nextID := task]
    {
      nextID := nextID + 1;
      entries := entries[nextID := task];
      return nextID;
    }

    method Remove(id: EntryID)
      modifies `entries
      ensures entries == old(entries) - {id}
    {
      entries := entries - {id};
    }
  }

  datatype Failure = IntervalNotPositive | AlreadyRegistered | BadSchedule

  /** What the scheduler stands for: the task registered under each name with its entry id,
      whether it runs, and the last id given out. */
  datatype Registry = Registry(tasks: map<string, Task>, ids: map<string, EntryID>, running: bool, last: EntryID)

  /** The calls; `parses` is the parser's verdict on the expression, and `shown` how the
      interval is formatted. */
  datatype Command =
    | AddJob(name: string, spec: string, run: nat, parses: bool)
    | AddInterval(name: string, interval: int, shown: string, run: nat, parses: bool)
    | RemoveJob(name: string)
    | Start
    | Stop

  function Every(shown: string): string {
    "@every " + shown
  }

  function Refusal(r: Registry, c: Command): Option<Failure> {
    match c
    case AddJob(name, _, _, parses) =>
      if name in r.tasks then Some(AlreadyRegistered) else if !parses then Some(BadSchedule) else None
    case AddInterval(name, interval, _, _, parses) =>
      if interval <= 0 then Some(IntervalNotPositive)
      else if name in r.tasks then Some(AlreadyRegistered)
      else if !parses then Some(BadSchedule) else None
    case _ => None
  }

  function Enter(r: Registry, name: string, task: Task): Registry {
    r.(tasks := r.tasks[name := task], ids := r.ids[name := r.last + 1], last := r.last + 1)
  }

  function Apply(r: Registry, c: Command): Registry {
    if Refusal(r, c).Some? then r
    else
      match c
      case AddJob(name, spec, run, _) => Enter(r, name, Task(spec, run))
      case AddInterval(name, _, shown, run, _) => Enter(r, name, Task(Every(shown), run))
      case RemoveJob(name) => r.(tasks := r.tasks - {name}, ids := r.ids - {name})
      case Start => r.(running := true)
      case Stop => r.(running := false)
  }

  /** `names` is the inverse of the name table: together they are a bijection between the
      registered names and the engine's live entries; `tasks` is what runs under each name. */
  ghost predicate Mirrors(jobs: map<string, EntryID>, entries: map<EntryID, Task>, names: map<EntryID, string>,
                          tasks: map<string, Task>, nextID: EntryID) {
    && names.Keys == entries.Keys && tasks.Keys == jobs.Keys
    && (forall a <- jobs :: jobs[a] in entries && names[jobs[a]] == a && tasks[a] == entries[jobs[a]])
    && (forall id <- names :: id <= nextID && names[id] in jobs && jobs[names[id]] == id)
  }

  lemma MirrorsAdd(jobs: map<string, EntryID>, entries: map<EntryID, Task>, names: map<EntryID, string>,
                   tasks: map<string, Task>, nextID: EntryID, name: string, task: Task)
    requires Mirrors(jobs, entries, names, tasks, nextID) && name !in jobs
    ensures Mirrors(jobs[name := nextID + 1], entries[nextID + 1 := task], names[nextID + 1 := name],
                    tasks[name := task], nextID + 1)
  {
  }

  lemma MirrorsRemove(jobs: map<string, EntryID>, entries: map<EntryID, Task>, names: map<EntryID, string>,
                      tasks: map<string, Task>, nextID: EntryID, name: string)
    requires Mirrors(jobs, entries, names, tasks, nextID) && name in jobs
    ensures Mirrors(jobs - {name}, entries - {jobs[name]}, names - {jobs[name]}, tasks - {name}, nextID)
  {
  }

  class Scheduler {
    const cron: Cron
    var jobs: map<string, EntryID>
    var running: bool
    ghost var names: map<EntryID, string>
    ghost var tasks: map<string, Task>

    constructor (cron: Cron)
      requires cron.entries == map[] && !cron.running
      ensures Valid() && ToRegistry() == Registry(map[], map[], false, cron.nextID) && this.cron == cron
    {
      this.cron := cron;
      jobs := map[];
      names := map[];
      tasks := map[];
      running := false;
    }

    /** The name table is a bijection onto the engine's live entries, and running mirrors it. */
    ghost predicate Valid()
      reads this, cron
    {
      Mirrors(jobs, cron.entries, names, tasks, cron.nextID) && running == cron.running
    }

    ghost function ToRegistry(): Registry
      requires Valid()
      reads this, cron
    {
      Registry(tasks, jobs, running, cron.nextID)
    }

    method AddEntry(name: string, task: Task)
      requires Valid() && name !in jobs
      modifies `jobs, `names, `tasks, cron`entries, cron`nextID
      ensures Valid() && ToRegistry() == Enter(old(ToRegistry()), name, task)
    {
      MirrorsAdd(jobs, cron.entries, names, tasks, cron.nextID, name, task);
      var id := cron.Schedule(task);
      jobs := jobs[name := id];
      names := names[id := name];
      tasks := tasks[name := task];
    }

    /** A new name gets a new entry; a refused call changes nothing. */
    method Register(name: string, task: Task, parses: bool) returns (failure: Option<Failure>)
      requires Valid()
      modifies `jobs, `names, `tasks, cron`entries, cron`nextID
      ensures Valid()
      ensures failure == if name in old(jobs) then Some(AlreadyRegistered)
                         else if !parses then Some(BadSchedule) else None
      ensures failure.Some? ==> ToRegistry() == old(ToRegistry()) && cron.entries == old(cron.entries)
      ensures failure.None? ==> ToRegistry() == Enter(old(ToRegistry()), name, task)
    {
      if name in jobs {
        return Some(AlreadyRegistered);
      }
      if !parses {
        return Some(BadSchedule);
      }
      AddEntry(name, task);
      return None;
    }

    method RemoveEntry(name: string)
      requires Valid()
      modifies `jobs, `names, `tasks, cron`entries
      ensures Valid() && ToRegistry() == Apply(old(ToRegistry()), RemoveJob(name))
    {
      if name in jobs {
        MirrorsRemove(jobs, cron.entries, names, tasks, cron.nextID, name);
        cron.Remove(jobs[name]);
        names := names - {jobs[name]};
        tasks := tasks - {name};
        jobs := jobs - {name};
      }
    }

    /** Every call does to the name table and the engine what `Apply` does to the registry. */
    method Do(c: Command) returns (failure: Option<Failure>)
      requires Valid()
      modifies this, cron
      ensures Valid()
      ensures failure == match c
                         case AddJob(name, _, _, parses) =>
                           if name in old(jobs) then Some(AlreadyRegistered)
                           else if !parses then Some(BadSchedule) else None
                         case AddInterval(name, interval, _, _, parses) =>
                           if interval <= 0 then Some(IntervalNotPositive)
                           else if name in old(jobs) then Some(AlreadyRegistered)
                           else if !parses then Some(BadSchedule) else None
                         case _ => None
      ensures failure == Refusal(old(ToRegistry()), c)
      ensures ToRegistry() == Apply(old(ToRegistry()), c)
      ensures failure.Some? ==> jobs == old(jobs) && cron.entries == old(cron.entries)
    {
      failure := None;
      match c
      case AddJob(name, spec, run, parses) =>
        failure := Register(name, Task(spec, run), parses);
      case AddInterval(name, interval, shown, run, parses) =>
        if interval <= 0 {
          return Some(IntervalNotPositive);
        }
        failure := Register(name, Task(Every(shown), run), parses);
      case RemoveJob(name) =>
        RemoveEntry(name);
      case Start =>
        if !running {
          cron.running := true;
          running := true;
        }
      case Stop =>
        if running {
          cron.running := false;
          running := false;
        }
    }

    /** Any run of calls. */
    method DoAll(cs: seq<Command>) returns (failures: seq<Option<Failure>>)
      requires Valid()
      modifies this, cron
      ensures Valid() && ToRegistry() == ApplyAll(old(ToRegistry()), cs)
      ensures failures == Refusals(old(ToRegistry()), cs)
    {
      failures := [];
      var i := 0;
      while i < |cs|
        invariant 0 <= i <= |cs| && Valid()
        invariant ApplyAll(ToRegistry(), cs[i..]) == ApplyAll(old(ToRegistry()), cs)
        invariant failures + Refusals(ToRegistry(), cs[i..]) == Refusals(old(ToRegistry()), cs)
      {
        assert cs[i..][0] == cs[i] && cs[i..][1..] == cs[i + 1..];
        RefusalsGoOn(failures, ToRegistry(), cs[i..]);
        var failure := Do(cs[i]);
        failures := failures + [failure];
        i := i + 1;
      }
    }
  }

  function ApplyAll(r: Registry, cs: seq<Command>): Registry
    decreases |cs|
  {
    if cs == [] then r else ApplyAll(Apply(r, cs[0]), cs[1..])
  }

  function Refusals(r: Registry, cs: seq<Command>): seq<Option<Failure>>
    decreases |cs|
  {
    if cs == [] then [] else [Refusal(r, cs[0])] + Refusals(Apply(r, cs[0]), cs[1..])
  }

  lemma RefusalsGoOn(before: seq<Option<Failure>>, r: Registry, cs: seq<Command>)
    requires cs != []
    ensures before + Refusals(r, cs) == before + [Refusal(r, cs[0])] + Refusals(Apply(r, cs[0]), cs[1..])
  {
  }

  /** After any run the scheduler is running exactly when a Start has not been followed by a Stop,
      or it was running and was never stopped. */
  lemma {:induction false} RunningIff(r: Registry, cs: seq<Command>)
    ensures ApplyAll(r, cs).running
       <==> (exists i :: 0 <= i < |cs| && cs[i] == Start && forall j :: i < j < |cs| ==> cs[j] != Stop)
            || (r.running && forall j :: 0 <= j < |cs| ==> cs[j] != Stop)
    decreases |cs|
  {
    if cs != [] {
      var rest := cs[1..];
      RunningIff(Apply(r, cs[0]), rest);
      assert forall j :: 0 <= j < |rest| ==> rest[j] == cs[j + 1];
      if i :| 0 <= i < |rest| && rest[i] == Start && forall j :: i < j < |rest| ==> rest[j] != Stop {
        assert cs[i + 1] == Start && forall j :: i + 1 < j < |cs| ==> cs[j] == rest[j - 1];
      }
      if i :| 0 <= i < |cs| && cs[i] == Start && forall j :: i < j < |cs| ==> cs[j] != Stop {
        assert i > 0 ==> rest[i - 1] == Start;
      }
      assert (forall j :: 0 <= j < |cs| ==> cs[j] != Stop)
        <==> cs[0] != Stop && forall j :: 0 <= j < |rest| ==> rest[j] != Stop by {
        assert forall j :: 0 < j < |cs| ==> cs[j] == rest[j - 1];
      }
    }
  }

  // ---- entry ids ----

  /** The entry ids a run gives to its registrations, in order. */
  function Given(r: Registry, cs: seq<Command>): seq<EntryID>
    decreases |cs|
  {
    if cs == [] then []
    else
      var c, rest := cs[0], Given(Apply(r, cs[0]), cs[1..]);
      if (c.AddJob? || c.AddInterval?) && Refusal(r, c).None? then [Apply(r, c).ids[c.name]] + rest else rest
  }

  /** No id is ever given to two registrations, or was given before the run. */
  lemma {:induction false} IdsAreNeverReused(r: Registry, cs: seq<Command>)
    ensures r.last <= ApplyAll(r, cs).last
    ensures forall i :: 0 <= i < |Given(r, cs)| ==> r.last < Given(r, cs)[i] <= ApplyAll(r, cs).last
    ensures forall i, j :: 0 <= i < j < |Given(r, cs)| ==> Given(r, cs)[i] < Given(r, cs)[j]
    decreases |cs|
  {
    if cs != [] {
      IdsAreNeverReused(Apply(r, cs[0]), cs[1..]);
    }
  }

  /** What is registered at the end of a run, and was not from the start, has the id that the run
      gave to its registration; names that were kept have the id they had. */
  lemma {:induction false} IdsComeFromRegistration(r: Registry, cs: seq<Command>, name: string)
    requires name in ApplyAll(r, cs).ids
    ensures var id := ApplyAll(r, cs).ids[name];
            (name in r.ids && r.ids[name] == id) || id in Given(r, cs)
    decreases |cs|
  {
    if cs != [] {
      IdsComeFromRegistration(Apply(r, cs[0]), cs[1..], name);
    }
  }

  function About(cs: seq<Command>, name: string): seq<Command> {
    if cs == [] then []
    else (if (cs[0].AddJob? || cs[0].AddInterval? || cs[0].RemoveJob?) && cs[0].name == name then [cs[0]] else [])
         + About(cs[1..], name)
  }

  /** What is registered under a name after any run depends on the calls about that name only. */
  lemma {:induction false} NamesAreIndependent(r: Registry, q: Registry,
                                               cs: seq<Command>, name: string)
    requires name in r.tasks <==> name in q.tasks
    requires name in r.tasks ==> r.tasks[name] == q.tasks[name]
    ensures var r', q' := ApplyAll(r, cs), ApplyAll(q, About(cs, name));
            && (name in r'.tasks <==> name in q'.tasks)
            && (name in r'.tasks ==> r'.tasks[name] == q'.tasks[name])
    decreases |cs|
  {
    if cs != [] {
      var r1 := Apply(r, cs[0]);
      if (cs[0].AddJob? || cs[0].AddInterval? || cs[0].RemoveJob?) && cs[0].name == name {
        var rest := About(cs[1..], name);
        assert About(cs, name)[0] == cs[0] && About(cs, name)[1..] == rest;
        NamesAreIndependent(r1, Apply(q, cs[0]), cs[1..], name);
      } else {
        assert About(cs, name) == About(cs[1..], name);
        NamesAreIndependent(r1, q, cs[1..], name);
      }
    }
  }

  /** A removed name is free again: registering it, as a job or at a positive interval, is refused
      only for its schedule, and it gets an entry that nothing had before. */
  lemma RemovedNameIsFree(r: Registry, name: string, between: seq<Command>, add: Command)
    requires About(between, name) == []
    requires (add.AddJob? || (add.AddInterval? && add.interval > 0)) && add.name == name
    ensures var q := ApplyAll(Apply(r, RemoveJob(name)), between);
            var task := Task(if add.AddJob? then add.spec else "@every " + add.shown, add.run);
            && Refusal(q, add) == (if add.parses then None else Some(BadSchedule))
            && (add.parses ==>
                  && Apply(q, add).tasks == q.tasks[name := task]
                  && name in Apply(q, add).ids && Apply(q, add).ids[name] > q.last >= r.last)
  {
    var r1 := Apply(r, RemoveJob(name));
    NamesAreIndependent(r1, r1, between, name);
    assert ApplyAll(r1, []) == r1;
    IdsAreNeverReused(r1, between);
  }
}
