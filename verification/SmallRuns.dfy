/** A small machine and the events it goes through: what the runs that show something going wrong are
    built from, each beginning with an empty machine. */
module SmallRuns {
  import opened Wrappers
  import opened Resources
  import opened QueueRows
  import opened Devices
  import opened World
  import opened HoldClock
  import opened Placement
  import opened Scan
  import opened Upkeep
  import opened Runs
  import Preemption

  /** One GPU, nothing measured, admission enforced; ten seconds of holding, at once; preemption or not, and
      no other machine. */
  function Small(now: real, slots: nat, preempts: bool): TickEnv {
    var gpu := GpuInfo(true, [GpuDevice(0, None, None, None)]);
    var node := NodeSnapshot(HostMemory(None, None, None, None), Some(gpu), 4, None, Reserve(0.0, 0.0, 0));
    TickEnv(Limits(true, 0.0, 0.0, 0, 99.0, 0.0, 0.0), Scheduling(true, 8, 0.0, 10.0, false),
            PreemptionPolicy(preempts, true, 60.0), node, node.reserve, 0.0, slots, now, [])
  }

  function SmallFixture(slots: nat): Fixture {
    Fixture(Small(0.0, slots, false).cfg, map[], 0.0, 0.0, 0.0, 4, slots)
  }

  function NewJob(id: JobId, gpus: nat): Row {
    Preemption.Modest(id, 100, Queued).(gpus := gpus)
  }

  /** Its process starts, under the job's own number. */
  function Starts(id: JobId): Fate {
    Fate(false, map[], {}, None, Launches(id, Some(5)))
  }

  function Claimed(row: Row, now: real): Row {
    row.(state := Running, startedAt := Some(now))
  }

  function InProcess(row: Row, now: real): Row {
    Claimed(row, now).(pid := Some(row.id), creation := Some(5))
  }

  function Empty(): Machine {
    Machine(World([], [], []), Clock(map[], map[]), map[], NothingElsewhere(), 0)
  }

  lemma {:induction false} AskingNothingIsAdmitted(
      now: real, slots: nat, id: JobId, gpus: nat, running: seq<ResourceRequest>)
    ensures var env := Small(now, slots, false);
      Admit(env.cfg, RequestFor(env.cfg, NewJob(id, gpus)), running, env.node).Admitted?
  {
  }

  /** Bounds a run of the small machine stays within. */
  predicate Roomy(fix: Fixture, slots: nat) {
    && fix.cfg == Small(0.0, slots, false).cfg && slots <= fix.slots && fix.reserveVram <= 0.0
    && fix.usableCpus >= 4 && fix.totals == map[]
  }

  /** One event of the small machine, within any such bounds. */
  ghost predicate Leads(m: Machine, ev: Event, m': Machine, slots: nat) {
    forall fix :: Roomy(fix, slots) ==> Follows(m, ev, m', fix)
  }

  lemma {:induction false} SmallTickIsPossible(m: Machine, now: real, slots: nat, fate: Fate, fix: Fixture)
    requires |Dispatchable(m.w.rows)| == 1 && Roomy(fix, slots)
    ensures TickPossible(m, Small(now, slots, false), [fate], fix)
  {
  }

  /** A job that may start, and has nowhere else to go, starts. */
  lemma {:induction false} FreeToStart(env: TickEnv, s: State, row: Row, fate: Fate, devices: seq<int>)
    requires row.pinned.None? && row.argvOk && !fate.withdrawn && !env.sched.autoPlacement && !s.closed
    requires row.state == Queued && Find(s.w.rows, row.id) == Some(row)
    requires Judge(env, Meanwhile(s, row, fate), row) == Here(devices)
    ensures Step(env, s, row, [], fate)
         == AfterClaim(Meanwhile(s, row, fate), Claimed(row, env.now), devices, fate.launch)
  {
  }

  /** The only waiting job starts when there is a slot and its devices can be found. */
  lemma {:induction false} LoneJobStarts(m: Machine, now: real, slots: nat, id: JobId, gpus: nat, devices: seq<int>)
    requires Dispatchable(m.w.rows) == [NewJob(id, gpus)] && Find(m.w.rows, id) == Some(NewJob(id, gpus))
    requires m.w.InFlight() < slots && AllocateFor(Small(now, slots, false), m.w, NewJob(id, gpus)) == Some(devices)
    ensures var m' := AfterTick(m, Small(now, slots, false), [Starts(id)]);
      && m'.w == World(Put(m.w.rows, InProcess(NewJob(id, gpus), now)), m.w.running + [RunningJob(id, devices)],
                       m.w.adopted)
      && m'.clock == Pruned(m.clock, {id})
  {
    var env, row, fate := Small(now, slots, false), NewJob(id, gpus), Starts(id);
    var s := Begin(m.w, m.clock, m.blocked, m.away);
    AskingNothingIsAdmitted(now, slots, id, gpus, RunningRequests(env.cfg, m.w));
    assert Judge(env, Meanwhile(s, row, fate), row) == Here(devices);
    FreeToStart(env, s, row, fate, devices);
    OneTurn(m, env, row, fate);
    assert [row][1..] == [] && Ids([row]) == {id};
  }

  lemma {:induction false} OneTurn(m: Machine, env: TickEnv, row: Row, fate: Fate)
    requires Dispatchable(m.w.rows) == [row]
    ensures Midway(m, env, [fate], 1) == Step(env, Begin(m.w, m.clock, m.blocked, m.away), row, [], fate)
  {
    var s := Begin(m.w, m.clock, m.blocked, m.away);
    assert [row][1..] == [];
    assert Walk(env, s, [row], [fate], 0) == s;
  }

  /** The first refused job, with nowhere else to go, is considered for holding. */
  lemma {:induction false} Stays(env: TickEnv, s: State, row: Row, fate: Fate)
    requires row.pinned.None? && !fate.withdrawn && !env.sched.autoPlacement && env.sched.backfill && !s.closed
    requires s.head.None? && Judge(env, Meanwhile(s, row, fate), row).NotHere?
    ensures var noted := Noted(env, Meanwhile(s, row, fate), row.id);
      Step(env, s, row, [], fate) == CountStep(env, HoldStep(env, HeadStep(env, noted, row), row), row)
  {
  }

  /** With every slot taken, it asks about preemption. */
  lemma {:induction false} HeadAsks(m: Machine, env: TickEnv, row: Row, fate: Fate)
    requires Dispatchable(m.w.rows) == [row] && m.w.InFlight() >= env.slots
    requires row.pinned.None? && !fate.withdrawn && !env.sched.autoPlacement && env.sched.backfill
    ensures AfterTick(m, env, [fate]).w == Preemption.Displaced(env, m.w, row)
  {
    var s := Begin(m.w, m.clock, m.blocked, m.away);
    OneTurn(m, env, row, fate);
    assert Judge(env, Meanwhile(s, row, fate), row) == NotHere(SlotsFull);
    Stays(env, s, row, fate);
  }

  // ---- its events, one by one -----------------------------------------

  function OnTheGpu(gpus: nat): seq<int> {
    if gpus == 0 then [] else [0]
  }

  lemma {:induction false} GpuIsFree(now: real, slots: nat, w: World, row: Row)
    requires row.gpus <= 1 && (row.gpus == 0 || w.running == [])
    ensures AllocateFor(Small(now, slots, false), w, row) == Some(OnTheGpu(row.gpus))
  {
    if row.gpus == 1 {
      var env := Small(now, slots, false);
      var devices := env.node.gpu.value.devices;
      assert devices[..0] == [];
      var cs := Devices.Candidates(w.rows, [], devices, row.mode, DeclaredVram(row), env.Policy());
      assert cs == [Candidate(-1.0, 0)];
      assert cs[..0] == [] && FreestFirst(cs) == cs && cs[..1] == cs;
      assert Indices(cs) == [0];
    }
  }

  /** Job 1, in process since the beginning. */
  function First(gpus: nat): Row {
    InProcess(NewJob(1, gpus), 0.0)
  }

  /** A table with at most one running row, and then perhaps a waiting one. */
  lemma {:induction false} ShortTables(row: Row, waiting: Row)
    requires row.id != waiting.id && row.state == Running && waiting.state == Queued && !waiting.cancelRequested
    requires !Before(waiting, row)
    ensures Put([], waiting) == [waiting] && Dispatchable([waiting]) == [waiting]
    ensures Find([waiting], waiting.id) == Some(waiting)
    ensures Put([row], waiting) == [row, waiting] && Dispatchable([row, waiting]) == [waiting]
    ensures Find([row, waiting], waiting.id) == Some(waiting)
    ensures InState([row], Running) == [row] && InState([row, waiting], Running) == [row]
  {
    assert [waiting][1..] == [] && [row][1..] == [] && [row, waiting][1..] == [waiting];
    assert Without([row], waiting.id) == [row];
  }

  lemma {:induction false} OneIsAdopted(rows: seq<Row>, row: Row, now: real, gpus: nat)
    requires row == InProcess(NewJob(1, gpus), now) && InState(rows, Running) == [row]
    ensures Recovered(rows, map[1 := 5]) == World(rows, [], [AdoptedJob(1, 1, 5)])
  {
    assert RecoveredTo(rows, [row], map[1 := 5], 0) == World(rows, [], []);
  }

  lemma {:induction false} JobArrives(m: Machine, row: Row, slots: nat) returns (ev: Event, m': Machine)
    requires row.state == Queued && row.node.None? && row.pid.None?
    requires row.id !in Ids(m.w.rows) && row.id !in m.w.Active()
    ensures Leads(m, ev, m', slots) && ev.Enqueue? && m' == m.(w := WithRow(m.w, row))
  {
    ev, m' := Enqueue(row), m.(w := WithRow(m.w, row));
  }

  lemma {:induction false} JobStarts(m: Machine, now: real, slots: nat, id: JobId, gpus: nat)
      returns (ev: Event, m': Machine)
    requires Dispatchable(m.w.rows) == [NewJob(id, gpus)] && Find(m.w.rows, id) == Some(NewJob(id, gpus))
    requires m.w.InFlight() < slots && gpus <= 1 && (gpus == 0 || m.w.running == [])
    ensures Leads(m, ev, m', slots) && ev.Tick?
    ensures m'.w
         == World(Put(m.w.rows, InProcess(NewJob(id, gpus), now)), m.w.running + [RunningJob(id, OnTheGpu(gpus))],
                  m.w.adopted)
    ensures m'.clock == Pruned(m.clock, {id})
  {
    forall fix | Roomy(fix, slots) ensures TickPossible(m, Small(now, slots, false), [Starts(id)], fix) {
      SmallTickIsPossible(m, now, slots, Starts(id), fix);
    }
    GpuIsFree(now, slots, m.w, NewJob(id, gpus));
    LoneJobStarts(m, now, slots, id, gpus, OnTheGpu(gpus));
    ev, m' := Tick(Small(now, slots, false), [Starts(id)]), AfterTick(m, Small(now, slots, false), [Starts(id)]);
  }

  /** Another dispatcher takes over and adopts job 1. */
  lemma {:induction false} TakenOver(m: Machine, gpus: nat, slots: nat) returns (ev: Event, m': Machine)
    requires InState(m.w.rows, Running) == [First(gpus)]
    ensures Leads(m, ev, m', slots) && ev.Restart?
    ensures m'.w == World(m.w.rows, [], [AdoptedJob(1, 1, 5)]) && m'.clock == Clock(map[], map[])
    ensures AdoptedIds(m'.w.adopted) == {1}
  {
    OneIsAdopted(m.w.rows, First(gpus), 0.0, gpus);
    ev, m' := Restart(map[1 := 5]), Restarted(m.w.rows, map[1 := 5]);
    OneAdopted(m'.w);
  }

  lemma {:induction false} OneAdopted(w: World)
    requires w.adopted == [AdoptedJob(1, 1, 5)]
    ensures AdoptedIds(w.adopted) == {1} && w.adopted[..0] == []
  {
    assert w.adopted[1..] == [];
  }

  /** From nothing, job 1 is queued and starts. */
  lemma {:induction false} FirstJobRuns(slots: nat, gpus: nat)
      returns (e: Event, m: Machine, e': Event, m': Machine)
    requires slots >= 1 && gpus <= 1
    ensures Leads(Empty(), e, m, slots) && e.Enqueue?
    ensures Leads(m, e', m', slots) && e'.Tick?
    ensures m'.w == World([First(gpus)], [RunningJob(1, OnTheGpu(gpus))], []) && m'.clock == Clock(map[], map[])
  {
    ShortTables(First(0).(id := 0), NewJob(1, gpus));
    e, m := JobArrives(Empty(), NewJob(1, gpus), slots);
    e', m' := JobStarts(m, 0.0, slots, 1, gpus);
    assert Without([NewJob(1, gpus)], 1) == [];
  }

  /** A run of the small machine so far. */
  ghost predicate Tale(ms: seq<Machine>, evs: seq<Event>, slots: nat) {
    |ms| == |evs| + 1 && ms[0] == Empty() && forall k :: 0 <= k < |evs| ==> Leads(ms[k], evs[k], ms[k + 1], slots)
  }

  lemma {:induction false} Then(ms: seq<Machine>, evs: seq<Event>, slots: nat, ev: Event, m: Machine)
    requires Tale(ms, evs, slots) && Leads(ms[|evs|], ev, m, slots)
    ensures Tale(ms + [m], evs + [ev], slots)
  {
  }

  /** Job 1 is queued, starts, and is adopted by another dispatcher. */
  lemma {:induction false} FirstJobIsAdopted(slots: nat, gpus: nat) returns (ms: seq<Machine>, evs: seq<Event>)
    requires slots >= 1 && gpus <= 1
    ensures Tale(ms, evs, slots) && |evs| == 3 && evs[0].Enqueue? && evs[1].Tick? && evs[2].Restart?
    ensures ms[2].w == World([First(gpus)], [RunningJob(1, OnTheGpu(gpus))], []) && AdoptedIds(ms[3].w.adopted) == {1}
    ensures ms[3].w == World([First(gpus)], [], [AdoptedJob(1, 1, 5)])
  {
    ShortTables(First(gpus), NewJob(2, 0));
    var e0, m1, e1, m2 := FirstJobRuns(slots, gpus);
    var e2, m3 := TakenOver(m2, gpus, slots);
    ms, evs := [Empty(), m1, m2, m3], [e0, e1, e2];
  }

  /** A tale is a run, safe throughout. */
  lemma {:induction false} TaleIsARun(ms: seq<Machine>, evs: seq<Event>, slots: nat)
    requires Tale(ms, evs, slots)
    ensures Run(ms, evs, SmallFixture(slots))
    ensures forall k :: 0 <= k < |ms| ==> Safe(ms[k], SmallFixture(slots))
  {
    assert Roomy(SmallFixture(slots), slots);
    forall k | 0 <= k < |evs| ensures Happens(ms, evs, SmallFixture(slots), k) {
      assert Leads(ms[k], evs[k], ms[k + 1], slots);
    }
    EmptyIsSafe(SmallFixture(slots));
    forall k | 0 <= k < |ms| ensures Safe(ms[k], SmallFixture(slots)) {
      EveryRunIsSafe(ms, evs, SmallFixture(slots), k);
    }
  }
}
