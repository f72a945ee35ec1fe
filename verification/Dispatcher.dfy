/** The dispatcher itself: the fields it keeps between ticks and the methods that change them.

    Each method is proved to leave exactly the state the specification functions describe, so what is
    proved about those functions, over ticks and over runs, holds of this object. */
module Dispatcher {
  import opened Wrappers
  import opened Resources
  import opened QueueRows
  import opened Devices
  import opened World
  import opened Hold
  import opened HoldClock
  import opened Placement
  import opened Scan
  import opened TickTheorems
  import opened Upkeep
  import opened Entitlement
  import opened QueueStore
  import opened Pressure
  import Runs
  import Preemption

  /** The variables a tick keeps only while it scans the queue. */
  datatype Tally = Tally(
    inFlight: nat, head: Option<Row>, held: Option<Row>, skipped: nat, refused: seq<Asked>, closed: bool)

  /** Who is on a device, by the map a scan of the running jobs builds. */
  function At(occupancy: map<int, Occupancy>, device: int): Occupancy {
    if device in occupancy then occupancy[device] else Vacant()
  }

  /** A device's occupancy once a job has been entered on the devices listed so far. */
  function JoinedOn(
      rows: seq<Row>, jobs: seq<RunningJob>, devices: seq<int>, device: int, mode: GpuMode, vram: Mib): Occupancy
  {
    var before := OccupancyOf(rows, jobs, device);
    if device in devices then Joined(before, mode, vram) else before
  }

  /** State `k + 1` of a tick comes from state `k` by the turn of job `k`. */
  ghost predicate OneStep(env: TickEnv, states: seq<State>, queue: seq<Row>, fates: seq<Fate>, k: nat)
    requires |states| == |queue| + 1 == |fates| + 1 && k < |queue|
  {
    states[k + 1] == Step(env, states[k], queue[k], queue[k + 1..], fates[k])
  }

  /** What a tick in this state would leave, were it over. */
  function LeftBy(s: State, strikes: nat): Runs.Machine {
    Runs.Machine(s.w, s.clock, s.blocked, s.away, strikes)
  }

  /** The states a tick goes through, from its beginning to what it leaves. */
  lemma {:induction false} TickStates(m: Runs.Machine, env: TickEnv, fates: seq<Fate>) returns (states: seq<State>)
    requires |fates| == |Dispatchable(m.w.rows)|
    ensures var queue := Dispatchable(m.w.rows);
      && |states| == |queue| + 1 && states[0] == Begin(m.w, m.clock, m.blocked, m.away)
      && (forall k :: 0 <= k < |queue| ==> OneStep(env, states, queue, fates, k))
      && LeftBy(states[|queue|], m.strikes) == Runs.AfterTick(m, env, fates)
  {
    states := States(env, Begin(m.w, m.clock, m.blocked, m.away), Dispatchable(m.w.rows), fates);
  }

  lemma {:induction false} ActiveFrom(cfg: Limits, rows: seq<Row>, active: set<JobId>, k: nat)
    requires k < |rows|
    ensures ActiveRequests(cfg, rows[k..], active)
         == (if Holds(rows[k], active) then [RequestFor(cfg, rows[k])] else [])
            + ActiveRequests(cfg, rows[k + 1..], active)
  {
    assert rows[k..][0] == rows[k] && rows[k..][1..] == rows[k + 1..];
  }

  lemma {:induction false} EligibleFrom(env: TickEnv, w: World, waiter: Row, rows: seq<Row>, k: nat)
    requires k < |rows|
    ensures Preemption.Eligible(env, w, waiter, rows[k..])
         == (if Preemption.Displaceable(env, w, waiter, rows[k]) then [rows[k]] else [])
            + Preemption.Eligible(env, w, waiter, rows[k + 1..])
  {
    assert rows[k..][0] == rows[k] && rows[k..][1..] == rows[k + 1..];
  }

  class Dispatcher {
    const store: QueueStore
    var running: seq<RunningJob>
    var adopted: seq<AdoptedJob>
    var holdSince: map<JobId, real>
    var holdSpent: map<JobId, real>
    var blocked: map<JobId, real>
    var pressureStrikes: nat
    var placementFailures: map<Key, Retry>
    var reports: map<NodeName, Report>
    var recalls: seq<Recall>

    constructor (store: QueueStore)
      ensures this.store == store && running == [] && adopted == []
      ensures holdSince == map[] && holdSpent == map[] && blocked == map[] && pressureStrikes == 0
      ensures placementFailures == map[] && reports == map[] && recalls == []
    {
      this.store := store;
      running, adopted := [], [];
      holdSince, holdSpent, blocked, pressureStrikes := map[], map[], map[], 0;
      placementFailures, reports, recalls := map[], map[], [];
    }

    function Now(): World
      reads this, store
    {
      World(store.rows, running, adopted)
    }

    function HoldClock(): Clock
      reads this
    {
      Clock(holdSince, holdSpent)
    }

    function Away(): Elsewhere
      reads this
    {
      Elsewhere(placementFailures, reports, recalls)
    }

    ghost function Machine(): Runs.Machine
      reads this, store
    {
      Runs.Machine(Now(), HoldClock(), blocked, Away(), pressureStrikes)
    }

    /** No job was given one device twice. */
    ghost predicate Tidy()
      reads this
    {
      forall k :: 0 <= k < |running| ==> NoRepeats(running[k].devices)
    }

    ghost predicate Valid()
      reads this, store
    {
      store.Valid() && Tidy()
    }

    // ---- devices ---------------------------------------------------------

    method DevicesInUse() returns (used: set<int>)
      ensures used == InUse(running)
    {
      used := {};
      for k := 0 to |running|
        invariant used == InUse(running[..k])
      {
        assert running[..k + 1][..k] == running[..k];
        used := used + AsSet(running[k].devices);
      }
      assert running[..|running|] == running;
    }

    /** The map of what `OccupancyOf` says about every device some running job holds. */
    method DeviceOccupancy() returns (occupancy: map<int, Occupancy>)
      requires Valid()
      ensures forall d :: At(occupancy, d) == OccupancyOf(store.rows, running, d)
    {
      occupancy := map[];
      for k := 0 to |running|
        invariant forall d :: At(occupancy, d) == OccupancyOf(store.rows, running[..k], d)
      {
        var job := running[k];
        var mode, vram := ModeOf(store.rows, job.id), VramOf(store.rows, job.id);
        for i := 0 to |job.devices|
          invariant forall d :: At(occupancy, d) == JoinedOn(store.rows, running[..k], job.devices[..i], d, mode, vram)
        {
          var index := job.devices[i];
          assert index !in job.devices[..i];
          assert job.devices[..i + 1] == job.devices[..i] + [index];
          ghost var was := occupancy;
          assert At(was, index) == OccupancyOf(store.rows, running[..k], index);
          occupancy := occupancy[index := Joined(At(occupancy, index), mode, vram)];
          forall d ensures At(occupancy, d) == JoinedOn(store.rows, running[..k], job.devices[..i + 1], d, mode, vram) {
            assert At(was, d) == JoinedOn(store.rows, running[..k], job.devices[..i], d, mode, vram);
          }
        }
        assert job.devices[..|job.devices|] == job.devices;
        assert running[..k + 1][..k] == running[..k];
      }
      assert running[..|running|] == running;
    }

    /** Devices for one job, or None when it must wait. */
    method AllocateDevices(env: TickEnv, row: Row) returns (devices: Option<seq<int>>)
      requires Valid()
      requires env.node.GpuUsable() ==> DistinctIndices(env.node.gpu.value.devices)
      ensures devices == AllocateFor(env, Now(), row)
      ensures devices.Some? ==> NoRepeats(devices.value)
    {
      if row.gpus == 0 || !env.node.GpuUsable() {
        return Some([]);
      }
      var gpu, policy, vram := env.node.gpu.value, env.Policy(), DeclaredVram(row);
      var occupancy := DeviceOccupancy();
      var wantsShare := row.mode == Shared && vram > 0.0;
      var candidates: seq<Candidate> := [];
      for n := 0 to |gpu.devices|
        invariant candidates == Devices.Candidates(store.rows, running, gpu.devices[..n], row.mode, vram, policy)
      {
        var device := gpu.devices[n];
        var held := At(occupancy, device.index);
        assert gpu.devices[..n + 1][..n] == gpu.devices[..n];
        if held.jobs > 0 {
          if !wantsShare || held.exclusive {
            continue;
          }
          if held.vram + vram > Max(0.0, device.total.GetOr<Mib>(0.0) - policy.reserveVram) {
            continue;
          }
          candidates := candidates + [Candidate(-2.0, device.index)];
          continue;
        }
        var free := device.FreePercent();
        if free.None? {
          candidates := candidates + [Candidate(-1.0, device.index)];
          continue;
        }
        if free.value + TOLERANCE < policy.threshold {
          continue;
        }
        candidates := candidates + [Candidate(free.value, device.index)];
      }
      assert gpu.devices[..|gpu.devices|] == gpu.devices;
      if |candidates| < row.gpus {
        return None;
      }
      devices := Some(Indices(FreestFirst(candidates)[..row.gpus]));
      AllocationIsSound(store.rows, running, gpu, row.gpus, row.mode, vram, policy);
    }

    /** One request for each running row this dispatcher follows, in table order. */
    method ReservedHere(cfg: Limits) returns (requests: seq<ResourceRequest>)
      ensures requests == RunningRequests(cfg, Now())
    {
      var rows, active := store.rows, Now().Active();
      requests := [];
      for k := 0 to |rows|
        invariant requests + ActiveRequests(cfg, rows[k..], active) == ActiveRequests(cfg, rows, active)
      {
        ActiveFrom(cfg, rows, active, k);
        if rows[k].state == Running && rows[k].id in active {
          requests := requests + [RequestFor(cfg, rows[k])];
        }
      }
      assert requests + [] == requests;
    }

    // ---- preemption ------------------------------------------------------

    method PreemptionCandidates(env: TickEnv, waiter: Row) returns (candidates: seq<Row>)
      ensures candidates == Preemption.Candidates(env, Now(), waiter)
      ensures forall row :: row in candidates <==>
        env.preemption.enabled && MayBeStopped(env, Now(), waiter, row)
    {
      forall row ensures row in Preemption.Candidates(env, Now(), waiter) <==>
        env.preemption.enabled && MayBeStopped(env, Now(), waiter, row)
      {
        CandidatesAreThoseWhoMayBeStopped(env, Now(), waiter, row);
      }
      if !env.preemption.enabled {
        return [];
      }
      var w, rows, rank := Now(), store.rows, Preemption.EffectiveRank(waiter);
      candidates := [];
      for k := 0 to |rows|
        invariant candidates + Preemption.Eligible(env, w, waiter, rows[k..])
               == Preemption.Eligible(env, w, waiter, rows)
      {
        EligibleFrom(env, w, waiter, rows, k);
        var mine := MayDisplace(env, rows[k], rank);
        if mine {
          candidates := candidates + [rows[k]];
        }
      }
      assert candidates + [] == candidates;
      candidates := Preemption.ByCost(env, candidates);
    }

    method MayDisplace(env: TickEnv, row: Row, rank: int) returns (may: bool)
      ensures forall waiter | Preemption.EffectiveRank(waiter) == rank ::
        may == Preemption.Displaceable(env, Now(), waiter, row)
    {
      if row.state != Running || row.preemptRequested {
        return false;
      }
      if Preemption.EffectiveRank(row) <= rank {
        return false;
      }
      if env.preemption.requireOptIn && !row.preemptible {
        return false;
      }
      if Preemption.RanFor(env.now, row) < env.preemption.minRuntime {
        return false;
      }
      return row.id in JobIds(running) || row.id in AdoptedIds(adopted);
    }

    /** Flags the shortest prefix of the candidates that passes the slot and admission test, or nobody. */
    method ConsiderPreemption(env: TickEnv, waiter: Row)
      requires Valid()
      modifies store`rows
      ensures Valid() && Now() == Preemption.Displaced(env, old(Now()), waiter)
    {
      ghost var w := Now();
      var candidates := PreemptionCandidates(env, waiter);
      var n := 1;
      while n <= |candidates| && !Preemption.Suffices(env, Now(), waiter, Preemption.RowIds(candidates[..n]))
        invariant 1 <= n <= |candidates| + 1
        invariant Preemption.ShortestPrefix(env, w, waiter, candidates, n)
               == Preemption.ShortestPrefix(env, w, waiter, candidates, 1)
      {
        n := n + 1;
      }
      if n > |candidates| {
        assert Preemption.RowIds(Preemption.Victims(env, w, waiter)) == {};
        MarkingNothing(store.rows, Some(waiter.id));
        return;
      }
      AskToStop(candidates[..n], waiter.id);
    }

    method AskToStop(victims: seq<Row>, waiter: JobId)
      requires Valid()
      modifies store`rows
      ensures Valid() && store.rows == Preemption.Marked(old(store.rows), Preemption.RowIds(victims), Some(waiter))
    {
      ghost var before := store.rows;
      MarkingNothing(before, Some(waiter));
      assert Preemption.RowIds(victims[..0]) == {};
      for k := 0 to |victims|
        invariant Valid()
        invariant store.rows == Preemption.Marked(before, Preemption.RowIds(victims[..k]), Some(waiter))
      {
        MarkingOneMore(before, Preemption.RowIds(victims[..k]), Some(waiter), victims[k].id);
        assert victims[..k + 1] == victims[..k] + [victims[k]];
        assert Preemption.RowIds(victims[..k + 1]) == Preemption.RowIds(victims[..k]) + {victims[k].id};
        var _ := store.RequestPreempt(victims[k].id, Some(waiter));
      }
      assert victims[..|victims|] == victims;
    }

    // ---- memory pressure -------------------------------------------------

    method NewestStoppable(now: real) returns (victim: Option<Row>)
      ensures victim == PressureVictim(store.rows, Now().Active(), now)
    {
      var rows, active := store.rows, Now().Active();
      victim := None;
      for k := 0 to |rows|
        invariant victim == PressureVictim(rows[..k], active, now)
      {
        assert rows[..k + 1][..k] == rows[..k];
        if rows[k].state != Running || rows[k].id !in active {
          continue;
        }
        if !rows[k].preemptible || rows[k].preemptRequested {
          continue;
        }
        if victim.None? || Preemption.RanFor(now, rows[k]) < Preemption.RanFor(now, victim.value) {
          victim := Some(rows[k]);
        }
      }
      assert rows[..|rows|] == rows;
    }

    /** One reading of free memory: the strike count moves, and enough strikes flag one job. */
    method RelievePressure(policy: PressurePolicy, free: Option<real>, now: real) returns (stopped: Option<Row>)
      requires Valid()
      modifies store`rows, this`pressureStrikes
      ensures Valid()
      ensures pressureStrikes == StrikesNext(policy, old(pressureStrikes), free)
      ensures stopped == if Acts(policy, old(pressureStrikes), free)
                         then PressureVictim(old(store.rows), Now().Active(), now) else None
      ensures store.rows == if stopped.None? then old(store.rows)
                            else Preemption.Marked(old(store.rows), {stopped.value.id}, None)
      ensures Machine() == Runs.Sampled(old(Machine()), policy, free, now)
    {
      stopped := None;
      if free.None? {
        return;
      }
      if free.value >= policy.recoverPercent {
        pressureStrikes := 0;
        return;
      }
      if free.value >= policy.floorPercent {
        return;
      }
      pressureStrikes := pressureStrikes + 1;
      if pressureStrikes < policy.samples {
        return;
      }
      stopped := NewestStoppable(now);
      if stopped.Some? {
        var _ := store.RequestPreempt(stopped.value.id, None);
      }
      pressureStrikes := 0;
    }

    // ---- holding ---------------------------------------------------------

    /** The running stretch of `id`, if there is one, ends at `now` and is added to what is banked. */
    method PauseHold(id: JobId, now: real)
      modifies this`holdSince, this`holdSpent
      ensures HoldClock() == Paused(old(HoldClock()), id, now)
    {
      if id in holdSince {
        var since := holdSince[id];
        holdSince := holdSince - {id};
        holdSpent := holdSpent[id := (if id in holdSpent then holdSpent[id] else 0.0) + (now - since)];
      }
    }

    /** Moves the hold clock one step for the tick's head and answers whether the step grants the hold. */
    method ShouldHold(env: TickEnv, head: Row, inFlight: nat) returns (hold: bool)
      modifies this`holdSince, this`holdSpent
      ensures var call := HoldCall(
                head.id, if head.id in blocked then Max(0.0, env.now - blocked[head.id]) else 0.0,
                HoldFutility(env, Now(), inFlight, head).Some?);
        && HoldClock() == Considered(old(HoldClock()), call, env.now, env.sched.headWait)
        && hold == Granted(HoldClock(), call, env.now, env.sched.headWait, env.sched.maxHold)
    {
      var waited := if head.id in blocked then Max(0.0, env.now - blocked[head.id]) else 0.0;
      if waited < env.sched.headWait {
        PauseHold(head.id, env.now);
        return false;
      }
      if HoldFutility(env, Now(), inFlight, head).Some? {
        PauseHold(head.id, env.now);
        return false;
      }
      if head.id !in holdSince {
        holdSince := holdSince[head.id := env.now];
      }
      var used := (if head.id in holdSpent then holdSpent[head.id] else 0.0) + (env.now - holdSince[head.id]);
      return used < env.sched.maxHold;
    }

    /** Keeps the clock's entries of `live` jobs and drops the rest. */
    method ForgetStaleHolds(live: set<JobId>)
      modifies this`holdSince, this`holdSpent
      ensures HoldClock() == Pruned(old(HoldClock()), live)
    {
      holdSince := map id | id in holdSince && id in live :: holdSince[id];
      holdSpent := map id | id in holdSpent && id in live :: holdSpent[id];
    }

    // ---- starting --------------------------------------------------------

    /** The tick's own variables beside the fields as they now are. */
    ghost function Scene(t: Tally): State
      reads this, store
    {
      State(Now(), t.inFlight, t.head, t.held, t.skipped, t.refused, t.closed, HoldClock(), blocked, Away())
    }

    method NoteBlocked(env: TickEnv, id: JobId)
      modifies this`blocked
      ensures blocked == if id in old(blocked) then old(blocked) else old(blocked)[id := env.now]
    {
      if id !in blocked {
        blocked := blocked[id := env.now];
      }
    }

    /** Claim, launch and record one job here. */
    method StartJob(env: TickEnv, row: Row, devices: seq<int>, fate: Fate, ghost t: Tally) returns (ok: bool)
      requires Valid() && NoRepeats(devices)
      modifies store`rows, this`running, this`blocked
      ensures Valid()
      ensures Scene(if ok then t.(inFlight := t.inFlight + 1) else t)
           == LocalStart(env, old(Scene(t)), row, devices, fate)
    {
      FindMeansListed(store.rows, row.id);
      if !row.argvOk {
        store.Finish(row.id, Some(127));
        return false;
      }
      ok := store.ClaimForStart(row.id, env.now);
      if ok {
        ghost var claimed := Find(old(store.rows), row.id).value.(state := Running, startedAt := Some(env.now));
        PutFacts(old(store.rows), claimed, row.id);
        ok := LaunchClaimed(old(Scene(t)), claimed, row.id, devices, fate.launch, t);
      }
    }

    /** Spawn a job just claimed: follow it if it launched, finish its row if it did not. */
    method LaunchClaimed(
        ghost before: State, ghost claimed: Row, id: JobId, devices: seq<int>, launch: Launch, ghost t: Tally)
      returns (ok: bool)
      requires Valid() && NoRepeats(devices)
      requires Scene(t) == SetRow(before, claimed) && Find(store.rows, id) == Some(claimed) && claimed.id == id
      modifies store`rows, this`running, this`blocked
      ensures Valid()
      ensures Scene(if ok then t.(inFlight := t.inFlight + 1) else t) == AfterClaim(before, claimed, devices, launch)
    {
      match launch
      case SpawnFails =>
        LastWriteWins(before.w.rows, claimed, FinishedRow(claimed, Some(127)));
        store.Finish(id, Some(127));
        return false;
      case Launches(pid, creation) =>
        LastWriteWins(before.w.rows, claimed, claimed.(pid := Some(pid), creation := creation));
        store.RecordProcess(id, pid, creation);
        running := running + [RunningJob(id, devices)];
        blocked := blocked - {id};
        return true;
    }

    // ---- other machines --------------------------------------------------

    /** How long a placement of this job there is still put off, if it is. */
    method PlacementPutOff(id: JobId, node: NodeName, now: real) returns (wait: Option<real>)
      ensures wait.None? <==> MayTry(placementFailures, Key(id, node), now)
      ensures wait.Some? ==> wait.value > 0.0 && MayTry(placementFailures, Key(id, node), now + wait.value)
    {
      var key := Key(id, node);
      if key !in placementFailures {
        return None;
      }
      var left := placementFailures[key].at - now;
      if left <= 0.0 {
        return None;
      }
      return Some(left);
    }

    method NotePlacementFailed(id: JobId, node: NodeName, now: real)
      modifies this`placementFailures
      ensures placementFailures == Failed(old(placementFailures), Key(id, node), now)
    {
      var key := Key(id, node);
      var delay := (if key in placementFailures then placementFailures[key].delay else 0.0) * 2.0;
      if delay < FIRST_RETRY {
        delay := FIRST_RETRY;
      }
      if delay > LONGEST_RETRY {
        delay := LONGEST_RETRY;
      }
      placementFailures := placementFailures[key := Retry(now + delay, delay)];
    }

    /** The cached report, where there is one, gains the request. */
    method AccountRemoteStart(node: NodeName, request: ResourceRequest)
      modifies this`reports
      ensures reports == if node in old(reports)
                         then old(reports)[node := Charge(old(reports)[node], request)] else old(reports)
    {
      if node in reports {
        reports := reports[node := Charge(reports[node], request)];
      }
    }

    /** One attempt at a machine that was chosen: a placement, a later retry, or a copy to be recalled. */
    method StartRemote(env: TickEnv, row: Row, node: NodeName, fate: Fate, ghost t: Tally) returns (ok: bool)
      requires Valid()
      modifies store`rows, this`blocked, this`placementFailures, this`reports, this`recalls
      ensures Valid()
      ensures (Scene(t), ok) == RemoteAttempt(env, old(Scene(t)), row, node, fate)
    {
      if !row.travels {
        NoteBlocked(env, row.id);
        return false;
      }
      if fate.shipped.None? {
        PutOff(env, row.id, node, t);
        return false;
      }
      ghost var before := Scene(t);
      ghost var claimable := Claimable(before, row.id);
      ok := store.ClaimForRemoteStart(row.id, node, fate.shipped.value, env.now);
      if !ok {
        assert claimable.None? && Scene(t) == before;
        recalls := recalls + [Recall(node, fate.shipped.value)];
        return;
      }
      Placed(before, row.id, node, RequestFor(env.cfg, row), t);
    }

    method Placed(ghost before: State, id: JobId, node: NodeName, request: ResourceRequest, ghost t: Tally)
      requires Valid()
      requires Scene(t) == before.(w := Now())
      modifies this`blocked, this`placementFailures, this`reports
      ensures Valid()
      ensures Scene(t) == Unblocked(before.(w := Now()), id).(away := PlacedOn(before.away, Key(id, node), request))
    {
      RecordPlacement(id, node, request);
      blocked := blocked - {id};
    }

    method PutOff(env: TickEnv, id: JobId, node: NodeName, ghost t: Tally)
      modifies this`blocked, this`placementFailures
      ensures Scene(t) == var noted := Noted(env, old(Scene(t)), id);
        noted.(away := noted.away.(failures := Failed(noted.away.failures, Key(id, node), env.now)))
    {
      NoteBlocked(env, id);
      NotePlacementFailed(id, node, env.now);
    }

    method RecordPlacement(id: JobId, node: NodeName, request: ResourceRequest)
      modifies this`placementFailures, this`reports
      ensures Away() == PlacedOn(old(Away()), Key(id, node), request)
    {
      placementFailures := placementFailures - {Key(id, node)};
      AccountRemoteStart(node, request);
    }

    // ---- the scan --------------------------------------------------------

    /** Whether, and where, this machine could start `row` now. */
    method JudgeHere(env: TickEnv, row: Row, t: Tally) returns (verdict: Verdict)
      requires Valid()
      requires env.node.GpuUsable() ==> DistinctIndices(env.node.gpu.value.devices)
      ensures verdict == Judge(env, Scene(t), row)
      ensures verdict.Here? ==> NoRepeats(verdict.devices)
    {
      if t.inFlight >= env.slots {
        return NotHere(SlotsFull);
      }
      var requests := ReservedHere(env.cfg);
      var decision := Admit(env.cfg, RequestFor(env.cfg, row), requests, env.node);
      if decision.Refused? {
        return NotHere(NotAdmitted(decision.why));
      }
      var devices := AllocateDevices(env, row);
      if devices.None? {
        return NotHere(NoDevices);
      }
      if t.held.Some? {
        var conflict := HoldConflict(env, Now(), t.inFlight, row, t.held.value);
        if conflict.Some? {
          return NotHere(HeldBack(conflict.value));
        }
      }
      return Here(devices.value);
    }

    /** Searches the later unpinned jobs for one that is admitted only without this one. */
    method WouldBlockTheQueue(env: TickEnv, row: Row, later: seq<Row>, ghost t: Tally) returns (blocks: bool)
      ensures blocks == FreesALater(env, Scene(t), RequestFor(env.cfg, row), later)
    {
      var requests := ReservedHere(env.cfg);
      var withMe, node := requests + [RequestFor(env.cfg, row)], env.node.(reserve := env.standing);
      for k := 0 to |later|
        invariant FreesALater(env, Scene(t), RequestFor(env.cfg, row), later[k..])
               == FreesALater(env, Scene(t), RequestFor(env.cfg, row), later)
      {
        assert later[k..][0] == later[k] && later[k..][1..] == later[k + 1..];
        if later[k].pinned.Some? {
          continue;
        }
        var theirs := RequestFor(env.cfg, later[k]);
        if Admit(env.cfg, theirs, withMe, node).Refused? && Admit(env.cfg, theirs, requests, node).Admitted? {
          return true;
        }
      }
      return false;
    }

    method PlaceElsewhere(env: TickEnv, row: Row, later: seq<Row>, localOk: bool, fate: Fate, ghost t: Tally)
      returns (node: Option<NodeName>)
      ensures node == ChooseNode(env, Scene(t), row, later, localOk, fate)
    {
      if !env.sched.autoPlacement || !row.travels {
        return None;
      }
      if localOk {
        var blocks := WouldBlockTheQueue(env, row, later, t);
        if !blocks {
          return None;
        }
      }
      for k := 0 to |env.nodes|
        invariant FirstWelcoming(env, Scene(t), row, env.nodes[k..], fate)
               == FirstWelcoming(env, Scene(t), row, env.nodes, fate)
      {
        assert env.nodes[k..][0] == env.nodes[k] && env.nodes[k..][1..] == env.nodes[k + 1..];
        if env.nodes[k] in fate.barred {
          continue;
        }
        var wait := PlacementPutOff(row.id, env.nodes[k], env.now);
        if wait.Some? {
          continue;
        }
        if Welcomes(env.cfg, Away(), env.nodes[k], RequestFor(env.cfg, row)) {
          return Some(env.nodes[k]);
        }
      }
      return None;
    }

    /** One more job passed over. */
    function Passed(env: TickEnv, t: Tally): Tally {
      t.(skipped := t.skipped + 1, closed := t.closed || t.skipped + 1 > env.sched.maxSkip)
    }

    method OfferPinned(env: TickEnv, row: Row, fate: Fate, t: Tally) returns (t': Tally)
      requires Valid() && row.pinned.Some?
      modifies store`rows, this`blocked, this`placementFailures, this`reports, this`recalls
      ensures Valid() && Scene(t') == PinnedStep(env, old(Scene(t)), row, fate)
    {
      var ok := TryThere(env, row, row.pinned.value, fate, t);
      if ok {
        return t;
      }
      NoteBlocked(env, row.id);
      t' := Passed(env, t);
    }

    method TryThere(env: TickEnv, row: Row, node: NodeName, fate: Fate, ghost t: Tally) returns (ok: bool)
      requires Valid()
      modifies store`rows, this`blocked, this`placementFailures, this`reports, this`recalls
      ensures Valid() && (Scene(t), ok) == TryPinned(env, old(Scene(t)), row, node, fate)
    {
      ok := false;
      if node !in env.nodes {
        return;
      }
      var wait := PlacementPutOff(row.id, node, env.now);
      if wait.None? && Welcomes(env.cfg, Away(), node, RequestFor(env.cfg, row)) {
        ok := StartRemote(env, row, node, fate, t);
      }
    }

    method OfferElsewhere(env: TickEnv, row: Row, later: seq<Row>, fate: Fate, ghost t: Tally)
      requires Valid()
      modifies store`rows, this`blocked, this`placementFailures, this`reports, this`recalls
      ensures Valid() && Scene(t) == ElsewhereStep(env, old(Scene(t)), row, later, fate)
    {
      var node := PlaceElsewhere(env, row, later, false, fate, t);
      if node.Some? {
        var _ := StartRemote(env, row, node.value, fate, t);
        return;
      }
      NoteBlocked(env, row.id);
    }

    method Hold(env: TickEnv, row: Row, t: Tally) returns (t': Tally)
      modifies this`holdSince, this`holdSpent
      ensures Scene(t') == HoldStep(env, old(Scene(t)), row)
    {
      var hold := ShouldHold(env, row, t.inFlight);
      t' := if hold then t.(held := Some(row)) else t;
    }

    method CountRefusal(env: TickEnv, row: Row, t: Tally) returns (t': Tally)
      ensures Scene(t') == CountStep(env, Scene(t), row)
    {
      var ask, counted := AskOf(env, row), t.skipped + 1;
      for k := 0 to |t.refused|
        invariant counted == if exists r :: r in t.refused[..k] && AsksAtLeast(ask, r) then t.skipped else t.skipped + 1
      {
        assert t.refused[..k + 1] == t.refused[..k] + [t.refused[k]];
        if AsksAtLeast(ask, t.refused[k]) {
          counted := t.skipped;
        }
      }
      assert t.refused[..|t.refused|] == t.refused;
      t' := t.(refused := t.refused + [ask], skipped := counted, closed := t.closed || counted > env.sched.maxSkip);
    }

    /** The turn of a refused job. Only the tick's first refusal asks about preemption and holding. */
    method Refuse(env: TickEnv, row: Row, t: Tally) returns (t': Tally)
      requires Valid()
      modifies store`rows, this`blocked, this`holdSince, this`holdSpent
      ensures Valid() && Scene(t') == RefusedStep(env, old(Scene(t)), row)
    {
      NoteBlocked(env, row.id);
      assert Scene(t) == Noted(env, old(Scene(t)), row.id);
      t' := t;
      if t.head.None? {
        t' := t.(head := Some(row));
        ConsiderPreemption(env, row);
        assert Scene(t') == HeadStep(env, Noted(env, old(Scene(t)), row.id), row);
      }
      if !env.sched.backfill {
        t' := t'.(closed := true);
        return;
      }
      if t.head.None? {
        t' := Hold(env, row, t');
      }
      t' := CountRefusal(env, row, t');
    }

    // ---- one tick --------------------------------------------------------

    /** A job that stays on this machine's queue, or starts. */
    method StayHere(env: TickEnv, row: Row, verdict: Verdict, offered: bool, fate: Fate, t: Tally) returns (t': Tally)
      requires Valid() && (verdict.Here? ==> NoRepeats(verdict.devices))
      modifies store`rows, this`running, this`blocked, this`holdSince, this`holdSpent
      ensures Valid() && Scene(t') == StayStep(env, old(Scene(t)), row, verdict, offered, fate)
    {
      if verdict.NotHere? {
        if offered {
          NoteBlocked(env, row.id);
          return Passed(env, t);
        }
        t' := Refuse(env, row, t);
        return;
      }
      var ok := StartJob(env, row, verdict.devices, fate, t);
      t' := if ok then t.(inFlight := t.inFlight + 1) else t;
    }

    /** The turn of a job this machine might take. */
    method ConsiderHere(env: TickEnv, row: Row, later: seq<Row>, fate: Fate, t: Tally) returns (t': Tally)
      requires Valid()
      requires env.node.GpuUsable() ==> DistinctIndices(env.node.gpu.value.devices)
      modifies store`rows, this`running, this`blocked, this`holdSince, this`holdSpent,
        this`placementFailures, this`reports, this`recalls
      ensures Valid() && Scene(t') == FreeStep(env, old(Scene(t)), row, later, fate)
    {
      var verdict := JudgeHere(env, row, t);
      var node := PlaceElsewhere(env, row, later, verdict.Here?, fate, t);
      if node.Some? {
        var ok := StartRemote(env, row, node.value, fate, t);
        if ok {
          return t;
        }
      }
      t' := StayHere(env, row, verdict, node.Some?, fate, t);
    }

    method TakeTurn(env: TickEnv, row: Row, later: seq<Row>, fate: Fate, t: Tally) returns (t': Tally)
      requires Valid()
      requires env.node.GpuUsable() ==> DistinctIndices(env.node.gpu.value.devices)
      modifies store`rows, this`running, this`blocked, this`holdSince, this`holdSpent,
        this`placementFailures, this`reports, this`recalls
      ensures Valid() && Scene(t') == Step(env, old(Scene(t)), row, later, fate)
    {
      reports := reports + fate.polled;
      if fate.withdrawn {
        // Another process removes the job before its turn.
        FindMeansListed(store.rows, row.id);
        var _ := store.RemoveQueued(row.id);
      }
      assert Scene(t) == Meanwhile(old(Scene(t)), row, fate);
      if row.pinned.Some? {
        t' := OfferPinned(env, row, fate, t);
      } else if t.closed {
        OfferElsewhere(env, row, later, fate, t);
        t' := t;
      } else {
        t' := ConsiderHere(env, row, later, fate, t);
      }
    }

    /** Walk the queue once and start whatever can start, here or on another machine. */
    method StartReadyJobs(env: TickEnv, fates: seq<Fate>)
      requires Valid() && |fates| == |Dispatchable(store.rows)|
      requires env.node.GpuUsable() ==> DistinctIndices(env.node.gpu.value.devices)
      modifies store`rows, this`running, this`blocked, this`holdSince, this`holdSpent,
        this`placementFailures, this`reports, this`recalls
      ensures Valid() && Machine() == Runs.AfterTick(old(Machine()), env, fates)
    {
      var queue := Dispatchable(store.rows);
      ghost var states := TickStates(old(Machine()), env, fates);
      ForgetStaleHolds(Ids(queue));
      placementFailures := LiveFailures(placementFailures, Ids(queue));
      var t := Tally(|running| + |adopted|, None, None, 0, [], false);
      for k := 0 to |queue|
        invariant Valid() && Scene(t) == states[k]
      {
        assert OneStep(env, states, queue, fates, k);
        t := TakeTurn(env, queue[k], queue[k + 1..], fates[k], t);
      }
    }

    // ---- endings ---------------------------------------------------------

    method Forget(id: JobId)
      requires Valid()
      modifies this`running
      ensures Valid() && running == DropRunning(old(running), {id})
    {
      DropRunningMembers(running, {id});
      ghost var kept := DropRunning(running, {id});
      forall k | 0 <= k < |kept| ensures NoRepeats(kept[k].devices) {
        assert kept[k] in kept;
        assert kept[k] in running;
      }
      running := DropRunning(running, {id});
    }

    /** Poll every job launched here; `exits` holds the exit codes of those that have ended. */
    method Reap(exits: map<JobId, int>)
      requires Valid()
      modifies store`rows, this`running
      ensures Valid() && Now() == ReapedTo(old(Now()), old(running), exits, |old(running)|)
    {
      var jobs := running;
      for k := 0 to |jobs|
        invariant Valid() && adopted == old(adopted)
        invariant Now() == ReapedTo(old(Now()), jobs, exits, k)
      {
        if jobs[k].id in exits {
          JobEnded(jobs[k].id, exits[jobs[k].id]);
        }
      }
    }

    /** One ended job leaves the books; its flag decides between another turn and the end. */
    method JobEnded(id: JobId, code: int)
      requires Valid()
      modifies store`rows, this`running
      ensures Valid() && Now() == ReapOne(old(Now()), id, code)
    {
      Forget(id);
      var row := Find(store.rows, id);
      if row.Some? && row.value.preemptRequested {
        var _ := store.Requeue(id);
        return;
      }
      store.Finish(id, Some(code));
    }

    /** Polls the adopted jobs against the live processes. */
    method ReapAdopted(procs: map<int, int>)
      requires Valid()
      modifies store`rows, this`adopted
      ensures Valid() && Now() == ReapedAdoptedTo(old(Now()), old(adopted), procs, |old(adopted)|)
    {
      var jobs := adopted;
      for k := 0 to |jobs|
        invariant Valid() && running == old(running)
        invariant Now() == ReapedAdoptedTo(old(Now()), jobs, procs, k)
      {
        if !StillThere(jobs[k], procs) {
          AdoptedJobGone(jobs[k].id);
        }
      }
    }

    method AdoptedJobGone(id: JobId)
      requires Valid()
      modifies store`rows, this`adopted
      ensures Valid() && Now() == ReapAdoptedOne(old(Now()), id)
    {
      adopted := DropAdopted(adopted, {id});
      store.Finish(id, None);
    }

    /** Rebuilds the books from the table: each local running row is adopted or finished. */
    method RecoverOrphans(procs: map<int, int>)
      requires Valid() && running == [] && adopted == []
      modifies store`rows, this`adopted
      ensures Valid() && Now() == Recovered(old(store.rows), procs)
    {
      var listed := InState(store.rows, Running);
      for k := 0 to |listed|
        invariant Valid() && running == []
        invariant Now() == RecoveredTo(old(store.rows), listed, procs, k)
      {
        var row := listed[k];
        if row.node.Some? {
          continue;
        }
        if row.pid.Some? && row.pid.value in procs
           && (row.creation.None? || row.creation.value == procs[row.pid.value]) {
          adopted := adopted + [AdoptedJob(row.id, row.pid.value, procs[row.pid.value])];
          continue;
        }
        store.Finish(row.id, None);
      }
    }
  }
}
