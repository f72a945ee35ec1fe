/** Where displaced jobs go. A job asked to stop comes back to the queue when the dispatcher that launched it
    sees it end, and is finished when another does. */
module Departures {
  import opened Wrappers
  import opened Resources
  import opened QueueRows
  import opened Devices
  import opened World
  import opened Scan
  import opened StepEffects
  import opened TickTheorems
  import opened Upkeep
  import opened Recovery
  import opened Runs
  import opened SmallRuns

  // ---- who is followed, and as what --------------------------------------

  /** The jobs launched here and the jobs adopted each only grow or only shrink, and never trade places. */
  ghost predicate Sorted(w: World, w': World) {
    || (w'.adopted == w.adopted
        && (JobIds(w.running) <= JobIds(w'.running) || JobIds(w'.running) <= JobIds(w.running)))
    || (w'.running == w.running && AdoptedIds(w'.adopted) <= AdoptedIds(w.adopted))
  }

  lemma {:induction false} TurnsOnlyLaunch(env: TickEnv, ts: seq<State>, queue: seq<Row>, k: nat)
    requires Turns(env, ts, queue) && k <= |queue|
    ensures ts[k].w.adopted == ts[0].w.adopted && JobIds(ts[0].w.running) <= JobIds(ts[k].w.running)
  {
    if k > 0 {
      TurnsOnlyLaunch(env, ts, queue, k - 1);
      assert TurnAt(env, ts, queue, k - 1);
      if ts[k].inFlight != ts[k - 1].inFlight {
        JobIdsAppend(ts[k - 1].w.running, ts[k].w.running[|ts[k].w.running| - 1]);
      }
    }
  }

  lemma {:induction false} TickOnlyLaunches(m: Machine, env: TickEnv, fates: seq<Fate>, turns: nat)
    requires Consistent(m.w) && |fates| == |Dispatchable(m.w.rows)| && turns <= |fates|
    ensures var w := Midway(m, env, fates, turns).w;
      w.adopted == m.w.adopted && JobIds(m.w.running) <= JobIds(w.running)
  {
    var queue := Dispatchable(m.w.rows);
    var s := Begin(m.w, m.clock, m.blocked, m.away);
    QueueIsListed(m.w);
    WalkIsARunOfTurns(env, s, queue, fates);
    TurnsOnlyLaunch(env, States(env, s, queue, fates), queue, turns);
  }

  lemma {:induction false} ReapingOnlyDrops(w: World, exits: map<JobId, int>, k: nat)
    requires k <= |w.running|
    ensures var w' := ReapedTo(w, w.running, exits, k);
      w'.adopted == w.adopted && JobIds(w'.running) <= JobIds(w.running)
  {
    if k > 0 {
      ReapingOnlyDrops(w, exits, k - 1);
      DropRunningIds(ReapedTo(w, w.running, exits, k - 1).running, {w.running[k - 1].id});
    }
  }

  lemma {:induction false} ReapingAdoptedOnlyDrops(w: World, procs: map<int, int>, k: nat)
    requires k <= |w.adopted|
    ensures var w' := ReapedAdoptedTo(w, w.adopted, procs, k);
      w'.running == w.running && AdoptedIds(w'.adopted) <= AdoptedIds(w.adopted)
  {
    if k > 0 {
      ReapingAdoptedOnlyDrops(w, procs, k - 1);
      DropAdoptedFacts(ReapedAdoptedTo(w, w.adopted, procs, k - 1).adopted, {w.adopted[k - 1].id});
    }
  }

  lemma {:induction false} EventsKeepJobsSorted(m: Machine, ev: Event, fix: Fixture)
    requires Consistent(m.w) && Possible(m, ev, fix) && !Replaces(ev)
    ensures Sorted(m.w, After(m, ev, fix).w)
  {
    match ev
    case Tick(env, fates) => TickOnlyLaunches(m, env, fates, |fates|);
    case Reap(exits) => ReapingOnlyDrops(m.w, exits, |m.w.running|);
    case ReapAdopted(procs) => ReapingAdoptedOnlyDrops(m.w, procs, |m.w.adopted|);
    case _ =>
  }

  lemma {:induction false} ReplacedFollowsOnlyAdopted(m: Machine, ev: Event, fix: Fixture)
    requires Consistent(m.w) && Possible(m, ev, fix) && Replaces(ev)
    ensures After(m, ev, fix).w.running == []
  {
    match ev
    case Restart(procs) =>
      TableIsLeftBehind(fix.cfg, m.w, procs);
      RestartOutcome(m.w.rows, procs, 0);
    case Crash(env, fates, turns, claiming, procs) =>
      CrashLeavesATable(fix.cfg, m, env, fates, turns, claiming, procs);
      RestartOutcome(LeftByCrash(m, env, fates, turns, claiming), procs, 0);
    case _ =>
  }

  /** A job in flight after an event was launched by the dispatcher there then exactly when that one saw the
      event, and had launched the job before or launched it then. */
  lemma {:induction false} OriginStep(m: Machine, ev: Event, fix: Fixture, id: JobId)
    requires Consistent(m.w) && Possible(m, ev, fix) && id in After(m, ev, fix).w.Active()
    ensures id in JobIds(After(m, ev, fix).w.running)
      <==> !Replaces(ev) && (id in JobIds(m.w.running) || id !in m.w.Active())
  {
    var w' := After(m, ev, fix).w;
    EventStaysConsistent(m, ev, fix);
    if Replaces(ev) {
      ReplacedFollowsOnlyAdopted(m, ev, fix);
    } else {
      EventsKeepJobsSorted(m, ev, fix);
    }
  }

  /** From event `from` on, which finds the job not in flight, it is in flight up to machine `k`. */
  ghost predicate InFlightSince(ms: seq<Machine>, from: nat, k: nat, id: JobId)
    requires from < k < |ms|
  {
    id !in ms[from].w.Active() && forall i :: from < i <= k ==> id in ms[i].w.Active()
  }

  ghost predicate SameDispatcher(evs: seq<Event>, from: nat, k: nat)
    requires k <= |evs|
  {
    forall i :: from <= i < k ==> !Replaces(evs[i])
  }

  /** Over a run: a job in flight counts as launched here exactly when no restart and no crash fell since its
      launch. */
  lemma {:induction false} LaunchedHereExactlyUntilReplaced(
      ms: seq<Machine>, evs: seq<Event>, fix: Fixture, from: nat, k: nat, id: JobId)
    requires Run(ms, evs, fix) && Consistent(ms[0].w) && from < k <= |evs| && InFlightSince(ms, from, k, id)
    ensures id in JobIds(ms[k].w.running) <==> SameDispatcher(evs, from, k)
  {
    EveryRunIsConsistent(ms, evs, fix, k - 1);
    FlightSoFar(ms, from, k, id);
    OneMoreEvent(evs, from, k - 1);
    if k - 1 > from {
      LaunchedHereExactlyUntilReplaced(ms, evs, fix, from, k - 1, id);
    }
    StepOfOrigin(ms, evs, fix, k - 1, id);
  }

  lemma {:induction false} FlightSoFar(ms: seq<Machine>, from: nat, k: nat, id: JobId)
    requires from < k < |ms| && InFlightSince(ms, from, k, id)
    ensures id in ms[k].w.Active() && (id in ms[k - 1].w.Active() <==> k - 1 > from)
    ensures k - 1 > from ==> InFlightSince(ms, from, k - 1, id)
  {
  }

  lemma {:induction false} OneMoreEvent(evs: seq<Event>, from: nat, k: nat)
    requires from <= k < |evs|
    ensures SameDispatcher(evs, from, k + 1) <==> SameDispatcher(evs, from, k) && !Replaces(evs[k])
  {
  }

  lemma {:induction false} StepOfOrigin(ms: seq<Machine>, evs: seq<Event>, fix: Fixture, k: nat, id: JobId)
    requires Run(ms, evs, fix) && k < |evs| && Consistent(ms[k].w) && id in ms[k + 1].w.Active()
    ensures id in JobIds(ms[k + 1].w.running)
      <==> !Replaces(evs[k]) && (id in JobIds(ms[k].w.running) || id !in ms[k].w.Active())
  {
    assert Happens(ms, evs, fix, k);
    OriginStep(ms[k], evs[k], fix, id);
  }

  // ---- what becomes of a job asked to stop -------------------------------

  lemma {:induction false} ReapTells(cfg: Limits, w: World, exits: map<JobId, int>, k: nat, id: JobId)
    requires Consistent(w) && Stopping(w, id) && k <= |w.running|
    ensures var w' := ReapedTo(w, w.running, exits, k);
      if id in w'.Active() then Find(w'.rows, id) == Find(w.rows, id)
      else id in JobIds(w.running) && Find(w'.rows, id).Some? && Find(w'.rows, id).value.state == Queued
  {
    if k > 0 {
      ReapTells(cfg, w, exits, k - 1, id);
      ReapEases(cfg, w, exits, k - 1);
      ReapingOnlyDrops(w, exits, k - 1);
      JobIsListed(w.running, k - 1);
      var before, ended := ReapedTo(w, w.running, exits, k - 1), w.running[k - 1].id;
      if ended in exits {
        OneReaped(before, ended, exits[ended], id);
      }
    }
  }

  /** The row of the one that ended goes back or is finished, and the others' are as they were. */
  lemma {:induction false} OneReaped(w: World, ended: JobId, code: int, id: JobId)
    ensures var w' := ReapOne(w, ended, code);
      && w'.Active() == (JobIds(w.running) - {ended}) + AdoptedIds(w.adopted)
      && (id != ended ==> Find(w'.rows, id) == Find(w.rows, id))
      && (Find(w.rows, ended).Some? && Find(w.rows, ended).value.preemptRequested ==>
            Find(w'.rows, ended).Some? && Find(w'.rows, ended).value.state == Queued)
  {
    DropRunningIds(w.running, {ended});
    FindMeansListed(w.rows, ended);
    var row := Find(w.rows, ended);
    if row.Some? {
      PutFacts(w.rows, RequeuedRow(w.rows, row.value), id);
      PutFacts(w.rows, RequeuedRow(w.rows, row.value), ended);
      PutFacts(w.rows, FinishedRow(row.value, Some(code)), id);
    }
  }

  lemma {:induction false} ReapAdoptedTells(cfg: Limits, w: World, procs: map<int, int>, k: nat, id: JobId)
    requires Consistent(w) && Stopping(w, id) && k <= |w.adopted|
    ensures var w' := ReapedAdoptedTo(w, w.adopted, procs, k);
      if id in w'.Active() then Find(w'.rows, id) == Find(w.rows, id)
      else id in AdoptedIds(w.adopted)
           && Find(w'.rows, id).Some? && Find(w'.rows, id).value.state == BackendState.Finished
  {
    if k > 0 {
      ReapAdoptedTells(cfg, w, procs, k - 1, id);
      ReapAdoptedEases(cfg, w, procs, k - 1);
      ReapingAdoptedOnlyDrops(w, procs, k - 1);
      AdoptedIsListed(w.adopted, k - 1);
      var before, gone := ReapedAdoptedTo(w, w.adopted, procs, k - 1), w.adopted[k - 1].id;
      if !StillThere(w.adopted[k - 1], procs) {
        OneAdoptedReaped(before, gone, id);
      }
    }
  }

  lemma {:induction false} OneAdoptedReaped(w: World, gone: JobId, id: JobId)
    ensures var w' := ReapAdoptedOne(w, gone);
      && w'.Active() == JobIds(w.running) + (AdoptedIds(w.adopted) - {gone})
      && (id != gone ==> Find(w'.rows, id) == Find(w.rows, id))
      && (Find(w.rows, gone).Some? ==>
            Find(w'.rows, gone).Some? && Find(w'.rows, gone).value.state == BackendState.Finished)
  {
    DropAdoptedFacts(w.adopted, {gone});
    FindMeansListed(w.rows, gone);
    var row := Find(w.rows, gone);
    if row.Some? {
      PutFacts(w.rows, FinishedRow(row.value, None), id);
      PutFacts(w.rows, FinishedRow(row.value, None), gone);
    }
  }

  /** A row running here when a dispatcher takes over is followed by it or finished. */
  lemma {:induction false} RecoveryTells(rows: seq<Row>, procs: map<int, int>, id: JobId)
    requires Distinct(rows) && Placeless(rows) && RunsIn(rows, id)
    ensures var w := Recovered(rows, procs);
      id !in w.Active() ==> Find(w.rows, id).Some? && Find(w.rows, id).value.state == BackendState.Finished
  {
    RestartOutcome(rows, procs, id);
    RecoveredSettles(rows, procs, id);
  }

  lemma {:induction false} KeptThrough(a: World, b: World, c: World, id: JobId)
    requires Kept(a, b, id) && Kept(b, c, id)
    ensures Kept(a, c, id)
  {
  }

  lemma {:induction false} TurnsKeepOthers(env: TickEnv, ts: seq<State>, queue: seq<Row>, k: nat, id: JobId)
    requires Turns(env, ts, queue) && k <= |queue| && forall i :: 0 <= i < |queue| ==> queue[i].id != id
    ensures Kept(ts[0].w, ts[k].w, id)
  {
    if k > 0 {
      TurnsKeepOthers(env, ts, queue, k - 1, id);
      assert TurnAt(env, ts, queue, k - 1);
      KeptThrough(ts[0].w, ts[k - 1].w, ts[k].w, id);
    }
  }

  lemma {:induction false} TickKeepsRunning(m: Machine, env: TickEnv, fates: seq<Fate>, turns: nat, id: JobId)
    requires Consistent(m.w) && |fates| == |Dispatchable(m.w.rows)| && turns <= |fates| && RunsIn(m.w.rows, id)
    ensures RunsIn(Midway(m, env, fates, turns).w.rows, id)
  {
    var queue := Dispatchable(m.w.rows);
    var s := Begin(m.w, m.clock, m.blocked, m.away);
    QueueIsListed(m.w);
    WalkIsARunOfTurns(env, s, queue, fates);
    TurnsKeepOthers(env, States(env, s, queue, fates), queue, turns, id);
  }

  lemma {:induction false} ClaimKeepsRunning(rows: seq<Row>, claimed: JobId, now: real, id: JobId)
    requires RunsIn(rows, id)
    ensures RunsIn(ClaimedOnly(rows, claimed, now), id)
  {
    FindMeansListed(rows, claimed);
    var row := Find(rows, claimed);
    if row.Some? {
      PutFacts(rows, row.value.(state := Running, startedAt := Some(now)), id);
    }
  }

  lemma {:induction false} CrashTells(
      m: Machine, env: TickEnv, fates: seq<Fate>, turns: nat, claiming: bool, procs: map<int, int>, fix: Fixture,
      id: JobId)
    requires Consistent(m.w) && Possible(m, Crash(env, fates, turns, claiming, procs), fix) && RunsIn(m.w.rows, id)
    ensures var w := Recovered(LeftByCrash(m, env, fates, turns, claiming), procs);
      id !in w.Active() ==> Find(w.rows, id).Some? && Find(w.rows, id).value.state == BackendState.Finished
  {
    CrashLeavesATable(fix.cfg, m, env, fates, turns, claiming, procs);
    TickKeepsRunning(m, env, fates, turns, id);
    if claiming {
      ClaimKeepsRunning(Midway(m, env, fates, turns).w.rows, Dispatchable(m.w.rows)[turns].id, env.now, id);
    }
    RecoveryTells(LeftByCrash(m, env, fates, turns, claiming), procs, id);
  }

  /** What a job asked to stop is when it leaves the books: queued again exactly when it was launched here and
      this dispatcher saw it go, finished otherwise. */
  lemma {:induction false} DepartureStep(m: Machine, ev: Event, fix: Fixture, id: JobId)
    requires Consistent(m.w) && Possible(m, ev, fix) && Stopping(m.w, id) && id !in After(m, ev, fix).w.Active()
    ensures var row := Find(After(m, ev, fix).w.rows, id);
      && row.Some? && row.value.state in {Queued, BackendState.Finished}
      && (row.value.state == Queued <==> !Replaces(ev) && id in JobIds(m.w.running))
  {
    assert Agrees(m.w, id);
    match ev
    case Tick(env, fates) => TickOnlyLaunches(m, env, fates, |fates|);
    case Reap(exits) => ReapTells(fix.cfg, m.w, exits, |m.w.running|, id);
    case ReapAdopted(procs) => ReapAdoptedTells(fix.cfg, m.w, procs, |m.w.adopted|, id);
    case Restart(procs) =>
      TableIsLeftBehind(fix.cfg, m.w, procs);
      RecoveryTells(m.w.rows, procs, id);
    case Crash(env, fates, turns, claiming, procs) => CrashTells(m, env, fates, turns, claiming, procs, fix, id);
    case _ =>
  }

  /** Over a run: a job asked to stop is queued again when it ends exactly when no restart and no crash fell
      between its launch and its end, and is finished otherwise. */
  lemma {:induction false} QueuedAgainExactlyWithItsDispatcher(
      ms: seq<Machine>, evs: seq<Event>, fix: Fixture, from: nat, k: nat, id: JobId)
    requires Run(ms, evs, fix) && Consistent(ms[0].w) && from < k < |evs| && InFlightSince(ms, from, k, id)
    requires Stopping(ms[k].w, id) && id !in ms[k + 1].w.Active()
    ensures var row := Find(ms[k + 1].w.rows, id);
      && row.Some? && row.value.state in {Queued, BackendState.Finished}
      && (row.value.state == Queued <==> SameDispatcher(evs, from, k + 1))
  {
    EveryRunIsConsistent(ms, evs, fix, k);
    LaunchedHereExactlyUntilReplaced(ms, evs, fix, from, k, id);
    StepOfDeparture(ms, evs, fix, k, id);
    OneMoreEvent(evs, from, k);
  }

  lemma {:induction false} StepOfDeparture(ms: seq<Machine>, evs: seq<Event>, fix: Fixture, k: nat, id: JobId)
    requires Run(ms, evs, fix) && k < |evs| && Consistent(ms[k].w)
    requires Stopping(ms[k].w, id) && id !in ms[k + 1].w.Active()
    ensures var row := Find(ms[k + 1].w.rows, id);
      && row.Some? && row.value.state in {Queued, BackendState.Finished}
      && (row.value.state == Queued <==> !Replaces(evs[k]) && id in JobIds(ms[k].w.running))
  {
    assert Happens(ms, evs, fix, k);
    DepartureStep(ms[k], evs[k], fix, id);
  }

  // ---- a run -------------------------------------------------------------

  lemma {:induction false} StopIsAsked(m: Machine) returns (ev: Event, m': Machine)
    requires m.w == World([First(0)], [], [AdoptedJob(1, 1, 5)])
    ensures Leads(m, ev, m', 1) && ev == AskStop(1, false, Some(2))
    ensures m'.w == World([Flagged(First(0), false, Some(2))], [], [AdoptedJob(1, 1, 5)]) && Stopping(m'.w, 1)
  {
    OneAdopted(m.w);
    assert [First(0)][1..] == [] && Without([First(0)], 1) == [];
    ev, m' := AskStop(1, false, Some(2)), m.(w := m.w.(rows := [Flagged(First(0), false, Some(2))]));
  }

  lemma {:induction false} AdoptedIsGone(m: Machine) returns (ev: Event, m': Machine)
    requires m.w == World([Flagged(First(0), false, Some(2))], [], [AdoptedJob(1, 1, 5)])
    ensures Leads(m, ev, m', 1) && ev == ReapAdopted(map[])
    ensures m'.w == World([FinishedRow(Flagged(First(0), false, Some(2)), None)], [], [])
  {
    var row := Flagged(First(0), false, Some(2));
    assert m.w.adopted[1..] == [] && DropAdopted(m.w.adopted, {1}) == [];
    assert [row][1..] == [] && Without([row], 1) == [];
    assert ReapedAdoptedTo(m.w, m.w.adopted, map[], 0) == m.w;
    ev, m' := ReapAdopted(map[]), m.(w := ReapedAdoptedTo(m.w, m.w.adopted, map[], 1));
  }

  lemma {:induction false} AdoptedIsAskedToStop() returns (ms: seq<Machine>, evs: seq<Event>)
    ensures Tale(ms, evs, 1) && |evs| == 4 && !Replaces(evs[0]) && !Replaces(evs[1]) && evs[2].Restart?
    ensures evs[3] == AskStop(1, false, Some(2)) && Stopping(ms[4].w, 1)
    ensures ms[4].w == World([Flagged(First(0), false, Some(2))], [], [AdoptedJob(1, 1, 5)])
  {
    ms, evs := FirstJobIsAdopted(1, 0);
    var e3, m4 := StopIsAsked(ms[3]);
    Then(ms, evs, 1, e3, m4);
    ms, evs := ms + [m4], evs + [e3];
  }

  lemma {:induction false} AdoptedIsFinished() returns (ms: seq<Machine>, evs: seq<Event>)
    ensures Tale(ms, evs, 1) && |evs| == 5 && !Replaces(evs[0]) && !Replaces(evs[1]) && evs[2].Restart?
    ensures evs[3] == AskStop(1, false, Some(2)) && evs[4] == ReapAdopted(map[]) && Stopping(ms[4].w, 1)
    ensures ms[5].w == World([FinishedRow(Flagged(First(0), false, Some(2)), None)], [], [])
  {
    ms, evs := AdoptedIsAskedToStop();
    var e4, m5 := AdoptedIsGone(ms[4]);
    Then(ms, evs, 1, e4, m5);
    ms, evs := ms + [m5], evs + [e4];
  }

  /** From nothing: a job starts, another dispatcher takes over, the job is asked to stop for a waiter, stops,
      and is recorded as finished without an exit code. */
  lemma {:induction false} DisplacedAfterARestartIsFinished() returns (ms: seq<Machine>, evs: seq<Event>, fix: Fixture)
    ensures Run(ms, evs, fix) && ms[0] == Empty() && |evs| == 5
    ensures forall k :: 0 <= k < 5 ==> (Replaces(evs[k]) <==> k == 2)
    ensures evs[3] == AskStop(1, false, Some(2)) && evs[4] == ReapAdopted(map[]) && Stopping(ms[4].w, 1)
    ensures ms[5].w == World([FinishedRow(Flagged(First(0), false, Some(2)), None)], [], [])
  {
    fix := SmallFixture(1);
    ms, evs := AdoptedIsFinished();
    TaleIsARun(ms, evs, 1);
  }
}
