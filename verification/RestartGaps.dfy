/** What a restart costs: the hold budget of every waiting job begins anew, and the devices of the jobs it
    adopts are forgotten. For each, when exactly something is lost, and a run in which it is. */
module RestartGaps {
  import opened Wrappers
  import opened QueueRows
  import opened Devices
  import opened World
  import opened Hold
  import opened HoldClock
  import opened Scan
  import opened TickTheorems
  import opened Runs
  import opened HoldRuns
  import opened SmallRuns
  import SmallTables
  import Preemption

  // ---- the hold budget ---------------------------------------------------

  /** The hold time charged to a waiting job survives an event exactly when the dispatcher does, or there was
      none to lose. A tick is asked about the moment it happens. */
  lemma {:induction false} BudgetSurvivesExactlyWithTheDispatcher(
      m: Machine, ev: Event, fix: Fixture, id: JobId, now: real)
    requires Possible(m, ev, fix)
    requires ev.Tick? ==> ev.env.now == now && id in Ids(Dispatchable(m.w.rows))
    ensures Used(After(m, ev, fix).clock, id, now) == Used(m.clock, id, now)
      <==> !Replaces(ev) || Used(m.clock, id, now) == 0.0
  {
    if ev.Tick? {
      var t := EveryTickIsOneHoldTick(m, ev.env, ev.fates);
      TickKeepsUsed(m.clock, t, id, ev.env.sched.headWait);
    }
  }

  // ---- devices of adopted jobs -------------------------------------------

  /** The devices a job on this list was given. */
  function Assigned(jobs: seq<RunningJob>, id: JobId): seq<int> {
    if jobs == [] then [] else if jobs[0].id == id then jobs[0].devices else Assigned(jobs[1..], id)
  }

  /** The machine as an event ends it: a crash ends it in the middle of a tick. */
  ghost function Leaves(m: Machine, ev: Event): World {
    if ev.Crash? && |ev.fates| == |Dispatchable(m.w.rows)| && ev.turns <= |ev.fates|
    then Midway(m, ev.env, ev.fates, ev.turns).w else m.w
  }

  /** The devices a job in flight after `k` events was launched with, whichever dispatcher launched it. */
  ghost function Inherited(ms: seq<Machine>, evs: seq<Event>, k: nat, id: JobId): seq<int>
    requires |ms| == |evs| + 1 && k <= |evs|
  {
    if id in JobIds(ms[k].w.running) then Assigned(ms[k].w.running, id)
    else if k == 0 || id !in AdoptedIds(ms[k].w.adopted) then []
    else
      var was := Leaves(ms[k - 1], evs[k - 1]);
      if id in JobIds(was.running) then Assigned(was.running, id) else Inherited(ms, evs, k - 1, id)
  }

  ghost function InheritedJobs(ms: seq<Machine>, evs: seq<Event>, k: nat, jobs: seq<AdoptedJob>): seq<RunningJob>
    requires |ms| == |evs| + 1 && k <= |evs|
  {
    if jobs == [] then []
    else
      var n := |jobs| - 1;
      InheritedJobs(ms, evs, k, jobs[..n]) + [RunningJob(jobs[n].id, Inherited(ms, evs, k, jobs[n].id))]
  }

  /** Who is on a device, adopted jobs included. */
  ghost function TrueOccupancy(ms: seq<Machine>, evs: seq<Event>, k: nat, d: int): Occupancy
    requires |ms| == |evs| + 1 && k <= |evs|
  {
    OccupancyOf(ms[k].w.rows, ms[k].w.running + InheritedJobs(ms, evs, k, ms[k].w.adopted), d)
  }

  ghost predicate SomeAdoptedOn(ms: seq<Machine>, evs: seq<Event>, k: nat, jobs: seq<AdoptedJob>, d: int)
    requires |ms| == |evs| + 1 && k <= |evs|
  {
    exists i :: 0 <= i < |jobs| && d in Inherited(ms, evs, k, jobs[i].id)
  }

  lemma {:induction false} AdoptedFillDevices(ms: seq<Machine>, evs: seq<Event>, k: nat, jobs: seq<AdoptedJob>, d: int)
    requires |ms| == |evs| + 1 && k <= |evs|
    ensures var seen := OccupancyOf(ms[k].w.rows, ms[k].w.running, d);
      var all := OccupancyOf(ms[k].w.rows, ms[k].w.running + InheritedJobs(ms, evs, k, jobs), d);
      if SomeAdoptedOn(ms, evs, k, jobs, d) then all.jobs > seen.jobs else all == seen
  {
    var running := ms[k].w.running;
    if jobs == [] {
      assert running + InheritedJobs(ms, evs, k, jobs) == running;
    } else {
      var n := |jobs| - 1;
      AdoptedFillDevices(ms, evs, k, jobs[..n], d);
      OneMoreInherited(ms, evs, k, jobs, d);
      var last := RunningJob(jobs[n].id, Inherited(ms, evs, k, jobs[n].id));
      var before := running + InheritedJobs(ms, evs, k, jobs[..n]);
      assert running + InheritedJobs(ms, evs, k, jobs) == before + [last];
      assert (before + [last])[..|before|] == before;
    }
  }

  lemma {:induction false} OneMoreInherited(ms: seq<Machine>, evs: seq<Event>, k: nat, jobs: seq<AdoptedJob>, d: int)
    requires |ms| == |evs| + 1 && k <= |evs| && jobs != []
    ensures SomeAdoptedOn(ms, evs, k, jobs, d)
      <==> SomeAdoptedOn(ms, evs, k, jobs[..|jobs| - 1], d) || d in Inherited(ms, evs, k, jobs[|jobs| - 1].id)
  {
    var n := |jobs| - 1;
    if SomeAdoptedOn(ms, evs, k, jobs[..n], d) {
      var i :| 0 <= i < n && d in Inherited(ms, evs, k, jobs[..n][i].id);
      assert d in Inherited(ms, evs, k, jobs[i].id);
    }
    if SomeAdoptedOn(ms, evs, k, jobs, d) {
      var i :| 0 <= i < |jobs| && d in Inherited(ms, evs, k, jobs[i].id);
      if i < n {
        assert jobs[..n][i] == jobs[i];
      }
    }
  }

  /** The dispatcher's view of a device is the truth exactly when no job it adopted was launched there. */
  lemma {:induction false} DeviceViewIsTrueExactlyWithoutAdoptedJobs(
      ms: seq<Machine>, evs: seq<Event>, k: nat, d: int)
    requires |ms| == |evs| + 1 && k <= |evs|
    ensures OccupancyOf(ms[k].w.rows, ms[k].w.running, d) == TrueOccupancy(ms, evs, k, d)
      <==> !SomeAdoptedOn(ms, evs, k, ms[k].w.adopted, d)
  {
    AdoptedFillDevices(ms, evs, k, ms[k].w.adopted, d);
  }

  /** So over any run a device no adopted job was launched on is truly safe. */
  lemma {:induction false} DevicesWithoutAdoptedJobsAreSafe(
      ms: seq<Machine>, evs: seq<Event>, fix: Fixture, k: nat, d: int)
    requires Run(ms, evs, fix) && Safe(ms[0], fix) && k <= |evs|
    requires !SomeAdoptedOn(ms, evs, k, ms[k].w.adopted, d)
    ensures DeviceSafe(TrueOccupancy(ms, evs, k, d), Budget(fix.totals, fix.reserveVram, d))
  {
    EveryRunIsSafe(ms, evs, fix, k);
    DeviceViewIsTrueExactlyWithoutAdoptedJobs(ms, evs, k, d);
  }

  /** With the one slot taken, the only waiting job holds the queue until its budget is spent. */
  lemma {:induction false} LoneHeadWaits(m: Machine, now: real, id: JobId)
    requires Dispatchable(m.w.rows) == [NewJob(id, 0)] && Find(m.w.rows, id) == Some(NewJob(id, 0))
    requires m.w.InFlight() == 1
    ensures var end := Midway(m, Small(now, 1, false), [Starts(id)], 1);
      && end.w == m.w && end.clock == Resumed(Pruned(m.clock, {id}), id, now)
      && end.held == (if Used(end.clock, id, now) < 10.0 then Some(NewJob(id, 0)) else None)
  {
    var env, row, fate := Small(now, 1, false), NewJob(id, 0), Starts(id);
    var s := Begin(m.w, m.clock, m.blocked, m.away);
    assert [row][1..] == [] && Ids([row]) == {id};
    OneTurn(m, env, row, fate);
    assert Judge(env, Meanwhile(s, row, fate), row) == NotHere(SlotsFull);
    Stays(env, s, row, fate);
    NobodyIsDisplaced(env, m.w, row);
    HoldingHelps(now, m.w, id);
  }

  lemma {:induction false} HoldingHelps(now: real, w: World, id: JobId)
    ensures HoldFutility(Small(now, 1, false), w, 1, NewJob(id, 0)) == None
  {
  }

  lemma {:induction false} NobodyIsDisplaced(env: TickEnv, w: World, waiter: Row)
    requires !env.preemption.enabled
    ensures Preemption.Displaced(env, w, waiter) == w
  {
    assert Preemption.RowIds([]) == {};
    NothingMarked(w.rows, Some(waiter.id));
  }

  lemma {:induction false} NothingMarked(rows: seq<Row>, waiter: Option<JobId>)
    ensures Preemption.Marked(rows, {}, waiter) == rows
  {
    if rows != [] {
      NothingMarked(rows[1..], waiter);
    }
  }

  // ---- two runs from the empty machine -----------------------------------

  // The events of the two runs, one by one.

  /** This tick holds the queue for each of these jobs, or for none of them. */
  ghost predicate Holds(m: Machine, ev: Event, ids: set<JobId>, held: bool) {
    forall id :: id in ids ==> (QueueHeld(m, ev, id) <==> held)
  }

  /** Job 2 waits behind job 1 in a tick at this time. */
  lemma {:induction false} HeadWaits(m: Machine, now: real) returns (ev: Event, m': Machine)
    requires m.w.rows == [First(0), NewJob(2, 0)] && m.w.InFlight() == 1
    ensures Leads(m, ev, m', 1) && ev.Tick? && ev.env.now == now
    ensures Holds(m, ev, {2}, Used(m'.clock, 2, now) < 10.0)
    ensures m'.w == m.w && m'.clock == Resumed(Pruned(m.clock, {2}), 2, now)
    ensures 2 in Ids(Dispatchable(m.w.rows))
  {
    ShortTables(First(0), NewJob(2, 0));
    assert Ids([NewJob(2, 0)]) == {2};
    forall fix | Roomy(fix, 1) ensures TickPossible(m, Small(now, 1, false), [Starts(2)], fix) {
      SmallTickIsPossible(m, now, 1, Starts(2), fix);
    }
    LoneHeadWaits(m, now, 2);
    ev, m' := Tick(Small(now, 1, false), [Starts(2)]), AfterTick(m, Small(now, 1, false), [Starts(2)]);
  }

  /** The run in which another dispatcher takes over between two starts. */
  ghost predicate TwoStarts(ms: seq<Machine>, evs: seq<Event>) {
    && |ms| == |evs| + 1 == 6
    && evs[0].Enqueue? && evs[1].Tick? && evs[2].Restart? && evs[3].Enqueue? && evs[4].Tick?
    && ms[0] == Empty()
    && ms[2].w == World([First(1)], [RunningJob(1, [0])], [])
    && ms[3].w == World([First(1)], [], [AdoptedJob(1, 1, 5)])
    && ms[4].w == World([First(1), NewJob(2, 1)], [], [AdoptedJob(1, 1, 5)])
    && ms[5].w == World(Put([First(1), NewJob(2, 1)], InProcess(NewJob(2, 1), 1.0)), [RunningJob(2, [0])],
                        [AdoptedJob(1, 1, 5)])
  }

  lemma {:induction false} TwoStartsHappen() returns (ms: seq<Machine>, evs: seq<Event>)
    ensures TwoStarts(ms, evs)
    ensures Tale(ms, evs, 2)
  {
    ShortTables(First(1), NewJob(2, 1));
    ms, evs := FirstJobIsAdopted(2, 1);
    var e3, m4 := JobArrives(ms[3], NewJob(2, 1), 2);
    var e4, m5 := JobStarts(m4, 1.0, 2, 2, 1);
    Then(ms, evs, 2, e3, m4);
    Then(ms + [m4], evs + [e3], 2, e4, m5);
    ms, evs := ms + [m4] + [m5], evs + [e3] + [e4];
  }

  lemma {:induction false} GpuIsTakenTwice() returns (ms: seq<Machine>, evs: seq<Event>)
    ensures |ms| == |evs| + 1 == 6 && ms[0] == Empty()
    ensures !Replaces(evs[0]) && !Replaces(evs[1]) && evs[2].Restart? && !Replaces(evs[3]) && !Replaces(evs[4])
    ensures SomeAdoptedOn(ms, evs, 5, ms[5].w.adopted, 0) && !DeviceSafe(TrueOccupancy(ms, evs, 5, 0), 0.0)
    ensures Tale(ms, evs, 2)
  {
    ms, evs := TwoStartsHappen();
    BothOnTheGpu(ms, evs);
  }

  /** Two jobs, each asking for a GPU to itself, on the one GPU: the dispatcher that launched the first was
      replaced in between. Every machine of the run is safe by the dispatcher's own books. */
  lemma {:induction false} AdoptedJobsLoseTheirDevices() returns (ms: seq<Machine>, evs: seq<Event>, fix: Fixture)
    ensures Run(ms, evs, fix) && ms[0] == Empty() && |evs| == 5 && forall k :: 0 <= k <= 5 ==> Safe(ms[k], fix)
    ensures forall k :: 0 <= k < 5 ==> (Replaces(evs[k]) <==> k == 2)
    ensures SomeAdoptedOn(ms, evs, 5, ms[5].w.adopted, 0)
    ensures !DeviceSafe(TrueOccupancy(ms, evs, 5, 0), Budget(fix.totals, fix.reserveVram, 0))
  {
    ms, evs := GpuIsTakenTwice();
    fix := SmallFixture(2);
    TaleIsARun(ms, evs, 2);
  }

  lemma {:induction false} BothOnTheGpu(ms: seq<Machine>, evs: seq<Event>)
    requires TwoStarts(ms, evs)
    ensures SomeAdoptedOn(ms, evs, 5, ms[5].w.adopted, 0)
    ensures !DeviceSafe(TrueOccupancy(ms, evs, 5, 0), 0.0)
  {
    OneAdopted(ms[5].w);
    WhereItWas(ms, evs);
    var all := [RunningJob(2, [0]), RunningJob(1, [0])];
    assert InheritedJobs(ms, evs, 5, []) == [];
    assert ms[5].w.running + InheritedJobs(ms, evs, 5, ms[5].w.adopted) == all;
    PutFacts([First(1), NewJob(2, 1)], InProcess(NewJob(2, 1), 1.0), 2);
    TwoExclusive(ms[5].w.rows, all);
  }

  /** Job 1 still has the device it was launched with. */
  lemma {:induction false} WhereItWas(ms: seq<Machine>, evs: seq<Event>)
    requires TwoStarts(ms, evs)
    ensures Inherited(ms, evs, 5, 1) == [0]
  {
    OneAdopted(ms[3].w);
    SmallTables.OneJob(RunningJob(1, [0]));
    SmallTables.OneJob(RunningJob(2, [0]));
    assert Inherited(ms, evs, 3, 1) == [0];
    assert Inherited(ms, evs, 4, 1) == [0];
  }

  lemma {:induction false} TwoExclusive(rows: seq<Row>, jobs: seq<RunningJob>)
    requires jobs == [RunningJob(2, [0]), RunningJob(1, [0])] && ModeOf(rows, 2) == Exclusive
    ensures !DeviceSafe(OccupancyOf(rows, jobs, 0), 0.0)
  {
    assert jobs[..1] == [RunningJob(2, [0])] && jobs[..1][..0] == [];
  }

  /** The run in which the head of the queue is held for, used up, and held for again. */
  ghost predicate ThreeHeadTicks(ms: seq<Machine>, evs: seq<Event>) {
    && |ms| == |evs| + 1 == 8 && ms[0] == Empty()
    && evs[3].Tick? && evs[4].Tick? && evs[6].Tick? && evs[3].env.now < evs[4].env.now < evs[6].env.now
    && !Replaces(evs[0]) && !Replaces(evs[1]) && !Replaces(evs[2]) && evs[5].Restart?
    && ms[3].w.rows == ms[4].w.rows == ms[5].w.rows == ms[6].w.rows && 2 in Ids(Dispatchable(ms[3].w.rows))
  }

  lemma {:induction false} HeadTicksHappen() returns (ms: seq<Machine>, evs: seq<Event>)
    ensures ThreeHeadTicks(ms, evs)
    ensures Tale(ms, evs, 1)
    ensures Holds(ms[3], evs[3], {2}, true) && Holds(ms[4], evs[4], {2}, false) && Holds(ms[6], evs[6], {2}, true)
  {
    var e0, m1, e1, m2, e2, m3 := BothQueued();
    var e3, m4, e4, m5 := BudgetIsUsedUp(m3);
    var e5, m6, e6, m7 := HeldAgain(m5);
    ms, evs := [Empty(), m1, m2, m3, m4, m5, m6, m7], [e0, e1, e2, e3, e4, e5, e6];
  }

  lemma {:induction false} HeadTicksInAll(ms: seq<Machine>, evs: seq<Event>)
    requires ThreeHeadTicks(ms, evs)
    ensures forall k :: 0 <= k < 7 ==> (Replaces(evs[k]) <==> k == 5)
    ensures forall k :: 3 <= k < 7 ==> 2 in Ids(Dispatchable(ms[k].w.rows))
  {
  }

  lemma {:induction false} BudgetIsUsedUp(m: Machine) returns (e: Event, m1: Machine, e1: Event, m2: Machine)
    requires m.w == World([First(0), NewJob(2, 0)], [RunningJob(1, [])], []) && m.clock == Clock(map[], map[])
    ensures Leads(m, e, m1, 1) && e.Tick? && e.env.now == 0.0 && Leads(m1, e1, m2, 1) && e1.Tick? && e1.env.now == 20.0
    ensures Holds(m, e, {2}, true) && Holds(m1, e1, {2}, false)
    ensures m1.w == m2.w == m.w && 2 in Ids(Dispatchable(m.w.rows))
  {
    e, m1 := HeadWaits(m, 0.0);
    e1, m2 := HeadWaits(m1, 20.0);
  }

  lemma {:induction false} HeldAgain(m: Machine) returns (e: Event, m1: Machine, e1: Event, m2: Machine)
    requires m.w == World([First(0), NewJob(2, 0)], [RunningJob(1, [])], [])
    ensures Leads(m, e, m1, 1) && e.Restart? && Leads(m1, e1, m2, 1) && e1.Tick? && e1.env.now == 21.0
    ensures Holds(m1, e1, {2}, true) && m1.w.rows == m.w.rows
  {
    ShortTables(First(0), NewJob(2, 0));
    e, m1 := TakenOver(m, 0, 1);
    e1, m2 := HeadWaits(m1, 21.0);
  }

  lemma {:induction false} BothQueued()
      returns (e0: Event, m1: Machine, e1: Event, m2: Machine, e2: Event, m3: Machine)
    ensures Leads(Empty(), e0, m1, 1) && Leads(m1, e1, m2, 1) && Leads(m2, e2, m3, 1)
    ensures !Replaces(e0) && !Replaces(e1) && !Replaces(e2)
    ensures m3.w == World([First(0), NewJob(2, 0)], [RunningJob(1, [])], []) && m3.clock == Clock(map[], map[])
  {
    ShortTables(First(0), NewJob(2, 0));
    SmallTables.OneJob(RunningJob(1, []));
    e0, m1, e1, m2 := FirstJobRuns(1, 0);
    e2, m3 := JobArrives(m2, NewJob(2, 0), 1);
  }

  /** One job stays at the head of the queue. Its ten seconds of holding are used up, and the queue is no
      longer held for it; a restart later it is held for it again. */
  lemma {:induction false} RestartRenewsTheHold() returns (ms: seq<Machine>, evs: seq<Event>, fix: Fixture, id: JobId)
    ensures Run(ms, evs, fix) && ms[0] == Empty() && |evs| == 7
    ensures forall k :: 0 <= k < 7 ==> (Replaces(evs[k]) <==> k == 5)
    ensures forall k :: 3 <= k < 7 ==> id in Ids(Dispatchable(ms[k].w.rows))
    ensures Holds(ms[3], evs[3], {id}, true) && Holds(ms[4], evs[4], {id}, false) && Holds(ms[6], evs[6], {id}, true)
    ensures evs[3].Tick? && evs[4].Tick? && evs[6].Tick?
    ensures evs[3].env.now < evs[4].env.now < evs[6].env.now
  {
    ms, evs := HeadTicksHappen();
    fix, id := SmallFixture(1), 2;
    HeadTicksInAll(ms, evs);
    TaleIsARun(ms, evs, 1);
  }
}
