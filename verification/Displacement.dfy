/** What displacing running work buys the waiter: where the question asked before stopping anybody is the
    right one, and where it is not. */
module Displacement {
  import opened Wrappers
  import opened Resources
  import opened QueueRows
  import opened Devices
  import opened World
  import opened Hold
  import opened Scan
  import opened StepEffects
  import opened Upkeep
  import opened Preemption
  import opened SmallTables

  // ---- the machine once some jobs have ended -----------------------------

  lemma {:induction false} OneMoreDropped(ids: set<JobId>, id: JobId, gone: set<JobId>)
    ensures |(ids + {id}) * gone| <= |ids * gone| + if id in gone then 1 else 0
    ensures id !in ids ==> |(ids + {id}) * gone| == |ids * gone| + if id in gone then 1 else 0
  {
    if id in gone {
      assert (ids + {id}) * gone == ids * gone + {id};
    } else {
      assert (ids + {id}) * gone == ids * gone;
    }
  }

  lemma {:induction false} RunningDropped(jobs: seq<RunningJob>, gone: set<JobId>)
    ensures |DropRunning(jobs, gone)| + |JobIds(jobs) * gone| <= |jobs|
    ensures JobsDiffer(jobs) ==> |DropRunning(jobs, gone)| + |JobIds(jobs) * gone| == |jobs|
  {
    if jobs != [] {
      var n := |jobs| - 1;
      RunningDropped(jobs[..n], gone);
      assert jobs == jobs[..n] + [jobs[n]];
      JobIdsAppend(jobs[..n], jobs[n]);
      OneMoreDropped(JobIds(jobs[..n]), jobs[n].id, gone);
      if JobsDiffer(jobs) {
        NotAmongEarlier(jobs, n);
      }
    } else {
      assert JobIds(jobs) * gone == {};
    }
  }

  lemma {:induction false} NotAmongEarlier(jobs: seq<RunningJob>, n: nat)
    requires JobsDiffer(jobs) && n < |jobs|
    ensures jobs[n].id !in JobIds(jobs[..n])
  {
    if jobs[n].id in JobIds(jobs[..n]) {
      SomeoneHasIt(jobs[..n], jobs[n].id);
    }
  }

  lemma {:induction false} SomeoneHasIt(jobs: seq<RunningJob>, id: JobId)
    requires id in JobIds(jobs)
    ensures exists k :: 0 <= k < |jobs| && jobs[k].id == id
  {
    if jobs[0].id != id {
      SomeoneHasIt(jobs[1..], id);
      var k :| 0 <= k < |jobs[1..]| && jobs[1..][k].id == id;
      assert jobs[k + 1].id == id;
    }
  }

  lemma {:induction false} AdoptedDropped(jobs: seq<AdoptedJob>, gone: set<JobId>)
    ensures |DropAdopted(jobs, gone)| + |AdoptedIds(jobs) * gone| <= |jobs|
    ensures AdoptedDiffer(jobs) ==> |DropAdopted(jobs, gone)| + |AdoptedIds(jobs) * gone| == |jobs|
  {
    if jobs != [] {
      AdoptedDropped(jobs[1..], gone);
      OneMoreDropped(AdoptedIds(jobs[1..]), jobs[0].id, gone);
      assert AdoptedIds(jobs) == AdoptedIds(jobs[1..]) + {jobs[0].id};
      if AdoptedDiffer(jobs) && jobs[0].id in AdoptedIds(jobs[1..]) {
        SomeAdoptedHasIt(jobs[1..], jobs[0].id);
      }
    } else {
      assert AdoptedIds(jobs) * gone == {};
    }
  }

  lemma {:induction false} SomeAdoptedHasIt(jobs: seq<AdoptedJob>, id: JobId)
    requires id in AdoptedIds(jobs)
    ensures exists k :: 0 <= k < |jobs| && jobs[k].id == id
  {
    if jobs[0].id != id {
      SomeAdoptedHasIt(jobs[1..], id);
      var k :| 0 <= k < |jobs[1..]| && jobs[1..][k].id == id;
      assert jobs[k + 1].id == id;
    }
  }

  /** Every job that ends frees a slot, one each when no job is listed twice. */
  lemma {:induction false} EndingFreesSlots(w: World, gone: set<JobId>)
    requires gone <= w.Active()
    ensures EndJobs(w, gone).InFlight() <= w.InFlight() - |gone|
    ensures Consistent(w) ==> EndJobs(w, gone).InFlight() == w.InFlight() - |gone|
  {
    RunningDropped(w.running, gone);
    AdoptedDropped(w.adopted, gone);
    var mine, inherited := JobIds(w.running) * gone, AdoptedIds(w.adopted) * gone;
    assert gone == mine + inherited;
    assert |mine + inherited| == |mine| + |inherited| - |mine * inherited|;
    if Consistent(w) {
      assert mine * inherited == {};
    }
  }

  lemma {:induction false} EndedReservesLess(
      cfg: Limits, rows: seq<Row>, gone: set<JobId>, few: set<JobId>, many: set<JobId>)
    requires few - gone <= many
    ensures Within(Reserved(cfg, EndRows(rows, gone), few), Reserved(cfg, rows, many))
  {
    if rows != [] {
      EndedReservesLess(cfg, rows[1..], gone, few, many);
      ReservedFirst(cfg, rows, many);
      ReservedFirst(cfg, EndRows(rows, gone), few);
    }
  }

  lemma {:induction false} ActiveAfterEnding(w: World, gone: set<JobId>)
    ensures EndJobs(w, gone).Active() == w.Active() - gone
  {
    DropRunningIds(w.running, gone);
    DropAdoptedFacts(w.adopted, gone);
  }

  // ---- what the question leaves out --------------------------------------

  /** What passes the test for a set of jobs passes it on the machine those jobs have left. */
  lemma {:induction false} SufficingIsAdmission(env: TickEnv, w: World, waiter: Row, gone: set<JobId>)
    requires gone <= w.Active() && Suffices(env, w, waiter, gone)
    ensures var after := EndJobs(w, gone);
      && after.InFlight() < env.slots
      && Admit(env.cfg, RequestFor(env.cfg, waiter), RunningRequests(env.cfg, after), env.node).Admitted?
  {
    var after := EndJobs(w, gone);
    EndingFreesSlots(w, gone);
    ActiveAfterEnding(w, gone);
    RowsOnlyHoldTheirOwn(env.cfg, after.rows, after.Active());
    EndRowsIds(w.rows, gone);
    EndedReservesLess(env.cfg, w.rows, gone, after.Active() * Ids(w.rows), Ids(w.rows) - gone);
    var left, counted := RunningRequests(env.cfg, after), ActiveRequests(env.cfg, w.rows, Ids(w.rows) - gone);
    if Admit(env.cfg, RequestFor(env.cfg, waiter), left, env.node).Refused? {
      AdmitOnlyGetsHarder(env.cfg, RequestFor(env.cfg, waiter), RequestFor(env.cfg, waiter), left, counted, env.node);
    }
  }

  lemma {:induction false} EndRowsIds(rows: seq<Row>, gone: set<JobId>)
    ensures Ids(EndRows(rows, gone)) == Ids(rows)
  {
    if rows != [] {
      EndRowsIds(rows[1..], gone);
    }
  }

  lemma {:induction false} RowsOnlyHoldTheirOwn(cfg: Limits, rows: seq<Row>, active: set<JobId>)
    ensures ActiveRequests(cfg, rows, active) == ActiveRequests(cfg, rows, active * Ids(rows))
  {
    ReservedSameActive(cfg, rows, active, active * Ids(rows));
  }

  /** Devices are never asked about. With its victims gone and the readings as they are, the waiter can start
      exactly when its devices can be found then. */
  lemma {:induction false} StoppingHelpsExactlyWhenDevicesAreFound(env: TickEnv, w: World, waiter: Row)
    requires Distinct(w.rows) && Victims(env, w, waiter) != []
    ensures var after := EndJobs(w, RowIds(Victims(env, w, waiter)));
      Startable(env, after, waiter) <==> AllocateFor(env, after, waiter).Some?
  {
    var gone := RowIds(Victims(env, w, waiter));
    VictimsAreMinimal(env, w, waiter);
    forall id | id in gone ensures id in w.Active() {
      var victim :| victim in Victims(env, w, waiter) && victim.id == id;
      VictimsAreJustified(env, w, waiter, victim);
    }
    SufficingIsAdmission(env, w, waiter, gone);
  }

  /** A machine with room to spare and one GPU, taken for good by a job that did not opt in. */
  function BusyGpu(): TickEnv {
    var gpu := GpuInfo(true, [GpuDevice(0, None, None, None)]);
    var node := NodeSnapshot(HostMemory(None, None, None, None), Some(gpu), 4, None, Reserve(0.0, 0.0, 0));
    TickEnv(Limits(false, 0.0, 0.0, 0, 99.0, 10.0, 0.0), Scheduling(true, 8, 900.0, 1800.0, true),
            PreemptionPolicy(true, true, 60.0), node, node.reserve, 0.0, 4, 100.0, [])
  }

  /** A job is stopped for nothing: the waiter wants a GPU somebody else keeps, a low job that uses none is
      stopped, and the waiter can no more start than before. Nobody needed to be stopped to pass the test. */
  lemma {:induction false} StoppedForNothing() returns (env: TickEnv, w: World, waiter: Row, victim: Row)
    ensures Consistent(w) && waiter in w.rows && waiter.state == Queued && waiter.rank < victim.rank
    ensures Victims(env, w, waiter) == [victim]
    ensures Suffices(env, w, waiter, {})
    ensures !Startable(env, EndJobs(w, {victim.id}), waiter)
  {
    var keeper := Modest(1, 50, Running).(gpus := 1, preemptible := false);
    victim := Modest(2, 200, Running);
    waiter := Modest(3, 50, Queued).(gpus := 1);
    env, w := BusyGpu(), World([keeper, waiter, victim], [RunningJob(1, [0]), RunningJob(2, [])], []);
    ThreeRowsAreConsistent(keeper, waiter, victim, [0]);
    TwoRunningOneVictim(env, keeper, waiter, victim, w);
    GpuStaysTaken(env, keeper, waiter, victim, w);
  }

  lemma {:induction false} ThreeRowsAreConsistent(keeper: Row, waiter: Row, victim: Row, devices: seq<int>)
    requires keeper.id == 1 && victim.id == 2 && waiter.id == 3
    requires RunsHere(keeper) && RunsHere(victim) && waiter.state == Queued && waiter.node.None? && waiter.pid.None?
    ensures Consistent(World([keeper, waiter, victim], [RunningJob(1, devices), RunningJob(2, [])], []))
  {
    var w := World([keeper, waiter, victim], [RunningJob(1, devices), RunningJob(2, [])], []);
    TwoJobs(w.running[0], w.running[1]);
    ThreeRows(keeper, waiter, victim, 1);
    forall id ensures Agrees(w, id) {
      ThreeRows(keeper, waiter, victim, id);
    }
  }

  lemma {:induction false} TwoRunningOneVictim(env: TickEnv, keeper: Row, waiter: Row, victim: Row, w: World)
    requires w == World([keeper, waiter, victim], [RunningJob(1, [0]), RunningJob(2, [])], [])
    requires env == BusyGpu() && victim == Modest(2, 200, Running)
    requires keeper == Modest(1, 50, Running).(gpus := 1, preemptible := false)
    requires waiter == Modest(3, 50, Queued).(gpus := 1)
    ensures Victims(env, w, waiter) == [victim] && Suffices(env, w, waiter, {})
  {
    TwoJobs(w.running[0], w.running[1]);
    assert IfDisplaceable(env, w, waiter, keeper) == [] && IfDisplaceable(env, w, waiter, waiter) == [];
    assert IfDisplaceable(env, w, waiter, victim) == [victim];
    EligibleOfThree(env, w, waiter, keeper, waiter, victim);
    assert Eligible(env, w, waiter, w.rows) == [victim];
    OneCandidate(env, victim);
    FirstIsEnough(env, w, waiter);
  }

  lemma {:induction false} GpuStaysTaken(env: TickEnv, keeper: Row, waiter: Row, victim: Row, w: World)
    requires w == World([keeper, waiter, victim], [RunningJob(1, [0]), RunningJob(2, [])], [])
    requires env == BusyGpu() && waiter == Modest(3, 50, Queued).(gpus := 1)
    requires keeper == Modest(1, 50, Running).(gpus := 1, preemptible := false) && victim == Modest(2, 200, Running)
    ensures !Startable(env, EndJobs(w, {2}), waiter)
  {
    KeeperStays(w.running);
    NoDeviceIsFree(EndJobs(w, {2}).rows, waiter);
  }

  lemma {:induction false} KeeperStays(running: seq<RunningJob>)
    requires running == [RunningJob(1, [0]), RunningJob(2, [])]
    ensures DropRunning(running, {2}) == [RunningJob(1, [0])]
  {
    assert running[..1] == [RunningJob(1, [0])] && running[..1][..0] == [];
    assert DropRunning([RunningJob(1, [0])], {2}) == [RunningJob(1, [0])];
  }

  lemma {:induction false} NoDeviceIsFree(rows: seq<Row>, waiter: Row)
    requires waiter == Modest(3, 50, Queued).(gpus := 1)
    ensures AllocateFor(BusyGpu(), World(rows, [RunningJob(1, [0])], []), waiter).None?
  {
    var env, running := BusyGpu(), [RunningJob(1, [0])];
    assert running[..0] == [];
    assert OccupancyOf(rows, running, 0).jobs == 1;
    var devices := env.node.gpu.value.devices;
    assert devices[..0] == [];
    assert Devices.Candidates(rows, running, devices, waiter.mode, DeclaredVram(waiter), env.Policy()) == [];
  }

  // ---- which of two equals -----------------------------------------------

  function Shorter(): Row {
    Modest(2, 200, Running).(startedAt := Some(30.0))
  }

  /** Two slots, and two jobs of one rank in them. */
  function TwoEquals(): World {
    World([Modest(1, 200, Running), Modest(3, 50, Queued), Shorter()], [RunningJob(1, []), RunningJob(2, [])], [])
  }

  lemma {:induction false} EqualsAreCandidates(env: TickEnv, waiter: Row)
    requires env == OneSlot().(slots := 2) && waiter == Modest(3, 50, Queued)
    ensures Preemption.Candidates(env, TwoEquals(), waiter) == [Modest(1, 200, Running), Shorter()]
    ensures Displaceable(env, TwoEquals(), waiter, Modest(1, 200, Running))
    ensures Displaceable(env, TwoEquals(), waiter, Shorter())
  {
    var w, longer := TwoEquals(), Modest(1, 200, Running);
    TwoJobs(w.running[0], w.running[1]);
    assert IfDisplaceable(env, w, waiter, longer) == [longer];
    assert IfDisplaceable(env, w, waiter, waiter) == [];
    assert IfDisplaceable(env, w, waiter, Shorter()) == [Shorter()];
    EligibleOfThree(env, w, waiter, longer, waiter, Shorter());
    assert Eligible(env, w, waiter, w.rows) == [longer, Shorter()];
    TwoCandidates(env, longer, Shorter());
  }

  /** Two jobs of one rank, either of which would do: the one that has run longer is stopped. */
  lemma {:induction false} LongerRunIsStopped()
    returns (env: TickEnv, w: World, waiter: Row, longer: Row, shorter: Row)
    ensures Consistent(w) && longer in w.rows && shorter in w.rows && waiter in w.rows && waiter.state == Queued
    ensures Displaceable(env, w, waiter, longer) && Displaceable(env, w, waiter, shorter)
    ensures longer.rank == shorter.rank && RanFor(env.now, shorter) < RanFor(env.now, longer)
    ensures Suffices(env, w, waiter, {longer.id}) && Suffices(env, w, waiter, {shorter.id})
    ensures Victims(env, w, waiter) == [longer]
  {
    longer, shorter, waiter := Modest(1, 200, Running), Shorter(), Modest(3, 50, Queued);
    env, w := OneSlot().(slots := 2), TwoEquals();
    ThreeRowsAreConsistent(longer, waiter, shorter, []);
    EqualsAreCandidates(env, waiter);
    FirstIsEnough(env, w, waiter);
  }

  // ---- jobs on other machines --------------------------------------------

  /** Nothing this queue placed is running on another machine. */
  ghost predicate NothingAway(w: World) {
    forall r :: r in w.rows && r.state == Running ==> r.node.None?
  }

  lemma {:induction false} EndedReservesTheSame(
      cfg: Limits, rows: seq<Row>, gone: set<JobId>, few: set<JobId>, many: set<JobId>)
    requires forall r :: r in rows && r.state == Running ==> ((r.id in few && r.id !in gone) <==> r.id in many)
    ensures ActiveRequests(cfg, EndRows(rows, gone), few) == ActiveRequests(cfg, rows, many)
  {
    if rows != [] {
      assert rows[0] in rows;
      EndedReservesTheSame(cfg, rows[1..], gone, few, many);
    }
  }

  /** While nothing runs on another machine the test asks what admission would: it passes for a set of jobs
      exactly when the waiter would find a slot and be admitted on the machine they have left. */
  lemma {:induction false} RightQuestionWhileNothingIsAway(env: TickEnv, w: World, waiter: Row, gone: set<JobId>)
    requires Consistent(w) && NothingAway(w) && gone <= w.Active()
    ensures var after := EndJobs(w, gone);
      Suffices(env, w, waiter, gone) <==>
        && after.InFlight() < env.slots
        && Admit(env.cfg, RequestFor(env.cfg, waiter), RunningRequests(env.cfg, after), env.node).Admitted?
  {
    EndingFreesSlots(w, gone);
    ActiveAfterEnding(w, gone);
    forall r | r in w.rows && r.state == Running ensures r.id in w.Active() && r.id in Ids(w.rows) {
      ListedMeansFound(w.rows, r);
      assert Agrees(w, r.id);
    }
    EndedReservesTheSame(env.cfg, w.rows, gone, w.Active() - gone, Ids(w.rows) - gone);
  }

  // ---- exactly when the question is right --------------------------------

  /** As the test counts it, and as admission will count it once `gone` have ended. */
  predicate AsAdmissionAsks(env: TickEnv, w: World, waiter: Row, gone: set<JobId>) {
    var after := EndJobs(w, gone);
    Suffices(env, w, waiter, gone) <==>
      && after.InFlight() < env.slots
      && Admit(env.cfg, RequestFor(env.cfg, waiter), RunningRequests(env.cfg, after), env.node).Admitted?
  }

  /** The question is right: for every waiter, on every machine with these limits and any number of slots, and
      for whatever set is stopped. */
  ghost predicate RightlyAsked(cfg: Limits, w: World) {
    forall env: TickEnv, waiter: Row, gone: set<JobId> ::
      (env.cfg == cfg && gone <= w.Active()) ==> AsAdmissionAsks(env, w, waiter, gone)
  }

  /** A request that takes nothing from any ledger. */
  predicate TakesNothing(request: ResourceRequest) {
    request.ram == 0.0 && request.vram == 0.0 && request.cpus == 0
  }

  predicate SameLedgers(a: ResourceRequest, b: ResourceRequest) {
    a.ram == b.ram && a.vram == b.vram && a.cpus == b.cpus
  }

  /** What runs elsewhere reserves nothing. */
  ghost predicate NothingAskedAway(cfg: Limits, w: World) {
    forall r :: r in w.rows && r.state == Running && r.node.Some? ==> TakesNothing(RequestFor(cfg, r))
  }

  lemma {:induction false} SameLedgersSameAnswer(
      cfg: Limits, want: ResourceRequest, a: seq<ResourceRequest>, b: seq<ResourceRequest>, node: NodeSnapshot)
    requires SameLedgers(SumReservations(a), SumReservations(b))
    ensures Admit(cfg, want, a, node).Admitted? <==> Admit(cfg, want, b, node).Admitted?
  {
  }

  lemma {:induction false} EndedLedgersAreTheSame(
      cfg: Limits, rows: seq<Row>, gone: set<JobId>, few: set<JobId>, many: set<JobId>)
    requires forall r :: r in rows && r.state == Running ==>
      ((r.id in few && r.id !in gone) <==> r.id in many)
      || (r.id !in few && TakesNothing(RequestFor(cfg, r)))
    ensures SameLedgers(Reserved(cfg, EndRows(rows, gone), few), Reserved(cfg, rows, many))
  {
    if rows != [] {
      assert rows[0] in rows;
      EndedLedgersAreTheSame(cfg, rows[1..], gone, few, many);
      ReservedFirst(cfg, rows, many);
      ReservedFirst(cfg, EndRows(rows, gone), few);
    }
  }

  lemma {:induction false} LocalOrElsewhere(cfg: Limits, w: World, r: Row)
    requires Consistent(w) && r in w.rows && r.state == Running
    ensures r.id in Ids(w.rows) && (r.id in w.Active() <==> r.node.None?)
  {
    ListedMeansFound(w.rows, r);
    assert Agrees(w, r.id);
  }

  lemma {:induction false} RightWhenNothingIsAskedAway(env: TickEnv, w: World, waiter: Row, gone: set<JobId>)
    requires Consistent(w) && gone <= w.Active() && (env.cfg.enforce ==> NothingAskedAway(env.cfg, w))
    ensures AsAdmissionAsks(env, w, waiter, gone)
  {
    EndingFreesSlots(w, gone);
    ActiveAfterEnding(w, gone);
    if env.cfg.enforce {
      forall r | r in w.rows && r.state == Running
        ensures r.id in Ids(w.rows) && (r.id in w.Active() <==> r.node.None?)
      {
        LocalOrElsewhere(env.cfg, w, r);
      }
      EndedLedgersAreTheSame(env.cfg, w.rows, gone, w.Active() - gone, Ids(w.rows) - gone);
      SameLedgersSameAnswer(env.cfg, RequestFor(env.cfg, waiter), RunningRequests(env.cfg, EndJobs(w, gone)),
                            ActiveRequests(env.cfg, w.rows, Ids(w.rows) - gone), env.node);
    }
  }

  /** A row that counts in the larger set and not in the smaller makes all the difference it asks for. */
  lemma {:induction false} OneMoreCounts(cfg: Limits, rows: seq<Row>, r: Row, few: set<JobId>, many: set<JobId>)
    requires r in rows && r.state == Running && r.id in many && r.id !in few && few <= many
    ensures Within(Plus(Reserved(cfg, rows, few), RequestFor(cfg, r)), Reserved(cfg, rows, many))
  {
    ReservedFirst(cfg, rows, few);
    ReservedFirst(cfg, rows, many);
    if rows[0] == r {
      FewerActiveReserveLess(cfg, rows[1..], few, many);
    } else {
      OneMoreCounts(cfg, rows[1..], r, few, many);
    }
  }

  /** A machine on which just one more MiB of RAM, one of VRAM or one CPU can be had beside `local`. */
  function TightMachine(cfg: Limits, local: ResourceRequest, slots: nat): TickEnv {
    var total: Mib := local.ram + 1.0;
    var floor := total * (cfg.minHostFreePercent / 100.0);
    var memory := HostMemory(Some(total), Some(Max(0.0, floor) + 1.0), None, None);
    var gpu := GpuInfo(true, [GpuDevice(0, Some(local.vram + 1.0), None, Some(1.0))]);
    var node := NodeSnapshot(memory, Some(gpu), local.cpus + 1, None, Reserve(0.0, 0.0, 0));
    TickEnv(cfg, Scheduling(true, 8, 900.0, 1800.0, true), PreemptionPolicy(true, true, 60.0),
            node, node.reserve, 0.0, slots, 0.0, [])
  }

  /** One more of everything. */
  function AskingForOne(): Row {
    Modest(0, 50, Queued).(ram := Some(1.0), vram := Some(1.0), cpus := Some(1))
  }

  lemma {:induction false} NotSmaller(a: real, b: real, factor: real)
    requires factor > 0.0 && a * factor >= b * factor
    ensures a >= b
  {
  }

  lemma {:induction false} AboveTheFloor(total: real, free: real, percent: real)
    requires total > 0.0 && free >= total * (percent / 100.0)
    ensures 100.0 * free / total >= percent
  {
    var share := percent / 100.0;
    assert (free / total) * total == free;
    NotSmaller(free / total, share, total);
    assert 100.0 * free / total == 100.0 * (free / total);
  }

  lemma {:induction false} TightMachineFigures(cfg: Limits, local: ResourceRequest, slots: nat)
    ensures var node := TightMachine(cfg, local, slots).node;
      && HardStop(cfg, node).None? && CommitLeft(node).None? && node.GpuUsable()
      && CapacityOf(node).usableRam == local.ram + 1.0 && CapacityOf(node).usableVram == local.vram + 1.0
      && CapacityOf(node).usableCpus == local.cpus + 1 && BestFree(node.gpu.value.devices) == 1.0
      && node.mem.available.GetOr<Mib>(0.0) - HostFloorMib(cfg, node) >= 1.0
  {
    var node := TightMachine(cfg, local, slots).node;
    var total := local.ram + 1.0;
    var floor := total * (cfg.minHostFreePercent / 100.0);
    AboveTheFloor(total, Max(0.0, floor) + 1.0, cfg.minHostFreePercent);
    assert CapacityOf(node).totalRam == total;
    var devices := node.gpu.value.devices;
    assert devices[1..] == [];
    assert DeviceTotals([]) == 0.0 && BestFree([]) == 0.0;
  }

  lemma {:induction false} JustFits(cfg: Limits, reserved: seq<ResourceRequest>, local: ResourceRequest, slots: nat)
    requires cfg.enforce
    requires SumReservations(reserved).ram >= local.ram && SumReservations(reserved).vram >= local.vram
    requires SumReservations(reserved).cpus >= local.cpus
    ensures Admit(cfg, RequestFor(cfg, AskingForOne()), reserved, TightMachine(cfg, local, slots).node).Admitted?
      <==> SameLedgers(SumReservations(reserved), local)
  {
    TightMachineFigures(cfg, local, slots);
  }

  /** Whatever runs elsewhere and asks for anything makes the question wrong on some machine. */
  lemma {:induction false} WrongWhenSomethingIsAskedAway(cfg: Limits, w: World, r: Row)
      returns (env: TickEnv, waiter: Row)
    requires Consistent(w) && cfg.enforce
    requires r in w.rows && r.state == Running && r.node.Some? && !TakesNothing(RequestFor(cfg, r))
    ensures env.cfg == cfg && !AsAdmissionAsks(env, w, waiter, {})
  {
    env, waiter := TightMachine(cfg, Ledger(cfg, w), w.InFlight() + 1), AskingForOne();
    NobodyEnds(w);
    LocalOrElsewhere(cfg, w, r);
    RowsOnlyHoldTheirOwn(cfg, w.rows, w.Active());
    OneMoreCounts(cfg, w.rows, r, w.Active() * Ids(w.rows), Ids(w.rows));
    JustFits(cfg, RunningRequests(cfg, w), Ledger(cfg, w), w.InFlight() + 1);
    assert Ids(w.rows) - {} == Ids(w.rows);
    JustFits(cfg, ActiveRequests(cfg, w.rows, Ids(w.rows)), Ledger(cfg, w), w.InFlight() + 1);
  }

  /** The question asked before anybody is stopped is right exactly when limits are not enforced or nothing
      that runs elsewhere asks for RAM, VRAM or CPUs. */
  lemma {:induction false} RightlyAskedExactlyWhenNothingIsAskedAway(cfg: Limits, w: World)
    requires Consistent(w)
    ensures RightlyAsked(cfg, w) <==> !cfg.enforce || NothingAskedAway(cfg, w)
  {
    if !cfg.enforce || NothingAskedAway(cfg, w) {
      forall env: TickEnv, waiter: Row, gone: set<JobId> | env.cfg == cfg && gone <= w.Active()
        ensures AsAdmissionAsks(env, w, waiter, gone)
      {
        RightWhenNothingIsAskedAway(env, w, waiter, gone);
      }
    } else {
      var r :| r in w.rows && r.state == Running && r.node.Some? && !TakesNothing(RequestFor(cfg, r));
      var env, waiter := WrongWhenSomethingIsAskedAway(cfg, w, r);
    }
  }

  /** Whatever refused the waiter, stopping nobody would pass the test exactly when it was not slots or
      admission; and then somebody is stopped all the same exactly when there is a candidate. (Who is stopped
      without need because others are stopping already is another matter: see `AskingAgain`.) */
  lemma {:induction false} NeedlessExactlyForWantOfDevices(env: TickEnv, s: State, waiter: Row)
    requires Consistent(s.w) && s.inFlight == s.w.InFlight() && s.held.None?
    requires NothingAway(s.w) && Judge(env, s, waiter).NotHere?
    ensures Suffices(env, s.w, waiter, {}) <==> Judge(env, s, waiter).why == NoDevices
    ensures Victims(env, s.w, waiter) != [] && Suffices(env, s.w, waiter, {})
      <==> Preemption.Candidates(env, s.w, waiter) != [] && Judge(env, s, waiter).why == NoDevices
  {
    RightQuestionWhileNothingIsAway(env, s.w, waiter, {});
    NobodyEnds(s.w);
    if Suffices(env, s.w, waiter, {}) {
      FirstCandidateIsTaken(env, s.w, waiter);
    }
  }

  lemma {:induction false} FirstCandidateIsTaken(env: TickEnv, w: World, waiter: Row)
    requires Suffices(env, w, waiter, {})
    ensures Victims(env, w, waiter) != [] <==> Preemption.Candidates(env, w, waiter) != []
  {
    var cs := Preemption.Candidates(env, w, waiter);
    if cs != [] {
      StoppingMoreStillSuffices(env, w, waiter, {}, RowIds(cs[..1]));
    }
  }

  lemma {:induction false} NobodyEnds(w: World)
    ensures EndJobs(w, {}) == w
  {
    EndNothing(w.rows);
    DropNothing(w.running);
    DropNothingAdopted(w.adopted);
  }

  lemma {:induction false} DropNothing(jobs: seq<RunningJob>)
    ensures DropRunning(jobs, {}) == jobs
  {
    if jobs != [] {
      var n := |jobs| - 1;
      DropNothing(jobs[..n]);
      assert jobs == jobs[..n] + [jobs[n]];
    }
  }

  lemma {:induction false} DropNothingAdopted(jobs: seq<AdoptedJob>)
    ensures DropAdopted(jobs, {}) == jobs
  {
    if jobs != [] {
      DropNothingAdopted(jobs[1..]);
    }
  }

  /** A machine with two CPUs and admission enforced. */
  function TwoCpus(): TickEnv {
    var node := NodeSnapshot(HostMemory(None, None, None, None), None, 2, None, Reserve(0.0, 0.0, 0));
    TickEnv(Limits(true, 0.0, 0.0, 0, 99.0, 10.0, 0.0), Scheduling(true, 8, 900.0, 1800.0, true),
            PreemptionPolicy(true, true, 60.0), node, node.reserve, 0.0, 4, 100.0, [])
  }

  /** A job running on another machine stands in the way although it uses nothing here: nobody is stopped,
      and yet the waiter could start here once the one candidate has ended. */
  lemma {:induction false} WorkElsewhereStandsInTheWay()
    returns (env: TickEnv, w: World, waiter: Row, candidate: Row)
    ensures Consistent(w) && waiter in w.rows && waiter.state == Queued
    ensures candidate in w.rows && Displaceable(env, w, waiter, candidate)
    ensures Victims(env, w, waiter) == []
    ensures Startable(env, EndJobs(w, {candidate.id}), waiter)
  {
    var abroad := Modest(1, 50, Running).(cpus := Some(2), node := Some("elsewhere"), preemptible := false);
    candidate := Modest(2, 200, Running).(cpus := Some(2));
    waiter := Modest(3, 50, Queued).(cpus := Some(2));
    env, w := TwoCpus(), World([abroad, waiter, candidate], [RunningJob(2, [])], []);
    OneJob(w.running[0]);
    ThreeRows(abroad, waiter, candidate, 1);
    forall id ensures Agrees(w, id) {
      ThreeRows(abroad, waiter, candidate, id);
    }
    NobodySuffices(env, w, abroad, waiter, candidate);
    ItWouldStart(env, w, abroad, waiter, candidate);
  }

  lemma {:induction false} NobodySuffices(env: TickEnv, w: World, abroad: Row, waiter: Row, candidate: Row)
    requires env == TwoCpus() && w == World([abroad, waiter, candidate], [RunningJob(2, [])], [])
    requires abroad == Modest(1, 50, Running).(cpus := Some(2), node := Some("elsewhere"), preemptible := false)
    requires candidate == Modest(2, 200, Running).(cpus := Some(2))
    requires waiter == Modest(3, 50, Queued).(cpus := Some(2))
    ensures Displaceable(env, w, waiter, candidate) && Victims(env, w, waiter) == []
  {
    OnlyCandidate(env, w, abroad, waiter, candidate);
    ThreeRows(abroad, waiter, candidate, 1);
    var cs := Preemption.Candidates(env, w, waiter);
    assert cs[..1] == [candidate] && RowIds([candidate]) == {2};
    RefusedBesideWorkAbroad(env, w.rows, abroad, waiter, Ids(w.rows) - {2});
    assert !Suffices(env, w, waiter, RowIds(cs[..1]));
    assert ShortestPrefix(env, w, waiter, cs, 2) == 0;
  }

  lemma {:induction false} RefusedBesideWorkAbroad(
      env: TickEnv, rows: seq<Row>, abroad: Row, waiter: Row, left: set<JobId>)
    requires env == TwoCpus() && rows != [] && rows[0] == abroad && abroad.state == Running && abroad.id in left
    requires abroad.cpus == Some(2) && waiter == Modest(3, 50, Queued).(cpus := Some(2))
    ensures Admit(env.cfg, RequestFor(env.cfg, waiter), ActiveRequests(env.cfg, rows, left), env.node).Refused?
  {
    ReservedFirst(env.cfg, rows, left);
  }

  lemma {:induction false} OnlyCandidate(env: TickEnv, w: World, abroad: Row, waiter: Row, candidate: Row)
    requires env == TwoCpus() && w == World([abroad, waiter, candidate], [RunningJob(2, [])], [])
    requires abroad == Modest(1, 50, Running).(cpus := Some(2), node := Some("elsewhere"), preemptible := false)
    requires candidate == Modest(2, 200, Running).(cpus := Some(2))
    requires waiter == Modest(3, 50, Queued).(cpus := Some(2))
    ensures Displaceable(env, w, waiter, candidate) && Preemption.Candidates(env, w, waiter) == [candidate]
  {
    OneJob(w.running[0]);
    assert w.rows[1..] == [waiter, candidate] && w.rows[1..][1..] == [candidate] && [candidate][1..] == [];
    assert Eligible(env, w, waiter, [candidate]) == [candidate];
    assert Eligible(env, w, waiter, [waiter, candidate]) == [candidate];
    assert Eligible(env, w, waiter, w.rows) == [candidate];
    OneCandidate(env, candidate);
  }

  lemma {:induction false} ItWouldStart(env: TickEnv, w: World, abroad: Row, waiter: Row, candidate: Row)
    requires env == TwoCpus() && w == World([abroad, waiter, candidate], [RunningJob(2, [])], [])
    requires candidate.id == 2 && waiter == Modest(3, 50, Queued).(cpus := Some(2))
    ensures Startable(env, EndJobs(w, {2}), waiter)
  {
    var after := EndJobs(w, {2});
    ActiveAfterEnding(w, {2});
    assert w.running[1..] == [] && w.running[..0] == [];
    assert after.running == [] && after.Active() == {};
    NobodyReserves(env.cfg, after.rows);
  }

  lemma {:induction false} NobodyReserves(cfg: Limits, rows: seq<Row>)
    ensures ActiveRequests(cfg, rows, {}) == []
  {
    if rows != [] {
      NobodyReserves(cfg, rows[1..]);
    }
  }
}
