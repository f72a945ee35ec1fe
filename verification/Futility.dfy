/** Exactly when the reasons for not holding the queue can be trusted. */
module Futility {
  import opened Wrappers
  import opened Resources
  import opened QueueRows
  import opened Devices
  import opened World
  import opened Hold

  /** The reason is right about a head: on no machine read or not read alike, with no jobs running and
      whichever of them end, does it mislead. */
  ghost predicate FutilityRight(cfg: Limits, head: Row, why: Futility, known: bool) {
    forall env: TickEnv, w: World, ended: set<JobId>, after: NodeSnapshot ::
      (env.cfg == cfg && (env.node.mem.available.Some? <==> known)) ==> !Misled(env, w, head, why, ended, after)
  }

  // ---- a machine that misleads -------------------------------------------

  /** Devices anybody could have: each as large as asked for, and all of it free. */
  function FreeDevices(n: nat, size: Mib): (ds: seq<GpuDevice>)
    ensures |ds| == n
    ensures forall d :: d in ds ==> d.total == Some(size) && d.free == Some(size)
  {
    seq(n, i => GpuDevice(i, Some(size), None, Some(size)))
  }

  /** A job that declared nothing, running. */
  function IdleJob(id: JobId): Row {
    Row(id, 100, 1, Some(0.0), Some(0.0), Some(0), 0, Exclusive, Running, None, None, None, None,
        false, false, false, None, None, None, None, false, true)
  }

  function BusyWorld(id: JobId): World {
    World([IdleJob(id)], [RunningJob(id, [])], [])
  }

  lemma {:induction false} BusyWorldDrains(cfg: Limits, id: JobId)
    ensures {id} <= BusyWorld(id).Active() && BusyWorld(id).InFlight() == 1
    ensures Ledger(cfg, BusyWorld(id)) == Nothing()
    ensures EndJobs(BusyWorld(id), {id}) == World([IdleJob(id).(state := Finished)], [], [])
    ensures RunningRequests(cfg, EndJobs(BusyWorld(id), {id})) == []
  {
    var w := BusyWorld(id);
    IdleReserves(cfg, IdleJob(id), w.Active());
    assert EndRows(w.rows[1..], {id}) == [];
    assert DropRunning(w.running[..0], {id}) == [];
    var left := EndJobs(w, {id});
    assert left.rows == [IdleJob(id).(state := Finished)];
    assert left.Active() == {};
    assert left.rows[1..] == [] && ActiveRequests(cfg, left.rows[1..], {}) == [];
    assert !Holds(left.rows[0], {});
  }

  lemma {:induction false} IdleReserves(cfg: Limits, row: Row, active: set<JobId>)
    requires RequestFor(cfg, row) == Nothing()
    ensures Reserved(cfg, [row], active) == Nothing()
  {
    var requests := ActiveRequests(cfg, [row], active);
    assert [row][1..] == [] && ActiveRequests(cfg, [], active) == [];
    if Holds(row, active) {
      assert requests == [] + [RequestFor(cfg, row)];
      SumAppendOne([], RequestFor(cfg, row));
      PlusLaws(Nothing(), Nothing(), Nothing());
    } else {
      assert requests == [];
    }
  }

  /** A machine with one slot, taken, and otherwise only what the reason is about in short supply. */
  function ShortMachine(cfg: Limits, head: Row, total: Mib, available: Option<Mib>, cpus: int): TickEnv {
    var request := RequestFor(cfg, head);
    var gpu := GpuInfo(true, FreeDevices(head.gpus + 1, request.vram + 1.0));
    var memory := HostMemory(Some(total), available, None, None);
    var node := NodeSnapshot(memory, Some(gpu), cpus, None, Reserve(0.0, 0.0, 0));
    TickEnv(cfg, Scheduling(true, 8, 900.0, 1800.0, true), PreemptionPolicy(false, true, 0.0),
            node, node.reserve, 0.0, 1, 0.0, [])
  }

  lemma {:induction false} FreeDevicesSuffice(
      rows: seq<Row>, devices: seq<GpuDevice>, size: Mib, mode: GpuMode, vram: Mib, policy: GpuPolicy)
    requires forall d :: d in devices ==> d.total == Some(size) && d.free == Some(size)
    requires size > 0.0 && policy.threshold <= 100.0
    ensures |Candidates(rows, [], devices, mode, vram, policy)| == |devices|
    ensures devices != [] ==> BestFree(devices) == size && DeviceTotals(devices) >= size
  {
    if devices != [] {
      var n := |devices| - 1;
      assert devices[n] in devices && devices[0] in devices;
      FreeDevicesSuffice(rows, devices[..n], size, mode, vram, policy);
      FreeDevicesSuffice(rows, devices[1..], size, mode, vram, policy);
    }
  }

  /** Once its only slot is free, the short machine takes the head: always without enforcement, and with it
      when only memory could stand in the way and none is asked for. */
  lemma {:induction false} ShortMachineStarts(
      cfg: Limits, head: Row, total: Mib, available: Option<Mib>, cpus: int, id: JobId)
    requires cfg.enforce ==>
      RequestFor(cfg, head).ram == 0.0 && available.None? && RequestFor(cfg, head).cpus <= cpus
    ensures Startable(ShortMachine(cfg, head, total, available, cpus), EndJobs(BusyWorld(id), {id}), head)
  {
    var env, w := ShortMachine(cfg, head, total, available, cpus), EndJobs(BusyWorld(id), {id});
    BusyWorldDrains(cfg, id);
    FreeDevicesSuffice(w.rows, env.node.gpu.value.devices, RequestFor(cfg, head).vram + 1.0,
                       head.mode, DeclaredVram(head), env.Policy());
    assert SumReservations(RunningRequests(cfg, w)) == Nothing();
  }

  lemma {:induction false} ShortMachineMisleads(
      cfg: Limits, head: Row, total: Mib, available: Option<Mib>, cpus: int, why: Futility)
    requires cfg.enforce ==>
      RequestFor(cfg, head).ram == 0.0 && available.None? && RequestFor(cfg, head).cpus <= cpus
    requires HoldFutility(ShortMachine(cfg, head, total, available, cpus), BusyWorld(head.id + 1), 1, head) == Some(why)
    ensures Misled(ShortMachine(cfg, head, total, available, cpus), BusyWorld(head.id + 1), head, why, {head.id + 1},
                   ShortMachine(cfg, head, total, available, cpus).node)
  {
    BusyWorldDrains(cfg, head.id + 1);
    ShortMachineStarts(cfg, head, total, available, cpus, head.id + 1);
  }

  /** What the short machine has for the head: the figures a reason is judged on. */
  lemma {:induction false} ShortMachineOffers(cfg: Limits, head: Row, total: Mib, available: Option<Mib>, cpus: int)
    ensures var env := ShortMachine(cfg, head, total, available, cpus);
      && CapacityOf(env.node).usableCpus == MaxInt(1, cpus) && CapacityOf(env.node).usableRam == total
      && HostFloorMib(cfg, env.node) == total * (cfg.minHostFreePercent / 100.0)
      && env.node.GpuUsable() && |env.node.gpu.value.devices| == head.gpus + 1
      && env.node.mem.available == available
      && Ledger(cfg, BusyWorld(head.id + 1)).ram == 0.0
  {
    BusyWorldDrains(cfg, head.id + 1);
    MemoryFigures(cfg, ShortMachine(cfg, head, total, available, cpus).node, total);
  }

  lemma {:induction false} MemoryFigures(cfg: Limits, node: NodeSnapshot, total: Mib)
    requires node.mem.total == Some(total) && node.reserve == Reserve(0.0, 0.0, 0)
    ensures CapacityOf(node).usableRam == total && CapacityOf(node).usableCpus == MaxInt(1, node.cpus)
    ensures HostFloorMib(cfg, node) == total * (cfg.minHostFreePercent / 100.0)
  {
    assert CapacityOf(node).totalRam == total;
  }

  lemma {:induction false} TooFewCpus(cfg: Limits, head: Row, available: Option<Mib>)
    requires RequestFor(cfg, head).cpus > 1
    ensures var env := ShortMachine(cfg, head, 0.0, available, 1);
      HoldFutility(env, BusyWorld(head.id + 1), 1, head) == Some(TooManyCpus)
  {
    ShortMachineOffers(cfg, head, 0.0, available, 1);
  }

  lemma {:induction false} TooLittleRam(cfg: Limits, head: Row, available: Option<Mib>)
    requires RequestFor(cfg, head).ram > 0.0
    ensures var cpus := RequestFor(cfg, head).cpus + 1;
      HoldFutility(ShortMachine(cfg, head, 0.0, available, cpus), BusyWorld(head.id + 1), 1, head) == Some(TooMuchRam)
  {
    ShortMachineOffers(cfg, head, 0.0, available, RequestFor(cfg, head).cpus + 1);
  }

  lemma {:induction false} RamTakenOutside(cfg: Limits, head: Row, total: Mib, available: Option<Mib>)
    requires RequestFor(cfg, head).ram <= total && available.GetOr<Mib>(0.0) == 0.0
    requires RequestFor(cfg, head).ram > 0.0 - total * (cfg.minHostFreePercent / 100.0)
    ensures var cpus := RequestFor(cfg, head).cpus + 1;
      HoldFutility(ShortMachine(cfg, head, total, available, cpus), BusyWorld(head.id + 1), 1, head)
      == Some(RamHeldOutside)
  {
    ShortMachineOffers(cfg, head, total, available, RequestFor(cfg, head).cpus + 1);
  }

  /** For every head and every reason that is not reliable there is a machine it misleads on. */
  lemma {:induction false} UnreliableMisleads(cfg: Limits, head: Row, why: Futility, known: bool)
      returns (env: TickEnv, w: World, ended: set<JobId>, after: NodeSnapshot)
    requires cfg.minHostFreePercent >= 0.0 && !FutilityReliable(cfg, head, why, known)
    ensures env.cfg == cfg && (env.node.mem.available.Some? <==> known)
    ensures Misled(env, w, head, why, ended, after)
  {
    var available: Option<Mib> := if known then Some(0.0) else None;
    var total, cpus := ShortOf(cfg, head, why, known, available);
    env, w, ended := ShortMachine(cfg, head, total, available, cpus), BusyWorld(head.id + 1), {head.id + 1};
    after := env.node;
    ShortMachineMisleads(cfg, head, total, available, cpus, why);
  }

  /** How much of everything the misleading machine has. */
  lemma {:induction false} ShortOf(cfg: Limits, head: Row, why: Futility, known: bool, available: Option<Mib>)
      returns (total: Mib, cpus: int)
    requires cfg.minHostFreePercent >= 0.0 && !FutilityReliable(cfg, head, why, known)
    requires available == if known then Some(0.0) else None
    ensures HoldFutility(ShortMachine(cfg, head, total, available, cpus), BusyWorld(head.id + 1), 1, head) == Some(why)
    ensures cfg.enforce ==>
      RequestFor(cfg, head).ram == 0.0 && available.None? && RequestFor(cfg, head).cpus <= cpus
  {
    var request := RequestFor(cfg, head);
    match why
    case TooManyCpus =>
      total, cpus := 0.0, 1;
      TooFewCpus(cfg, head, available);
    case TooMuchRam =>
      total, cpus := 0.0, request.cpus + 1;
      TooLittleRam(cfg, head, available);
    case RamHeldOutside =>
      total, cpus := if request.ram > 0.0 then request.ram else 1.0, request.cpus + 1;
      FloorIsShort(cfg, request.ram, total);
      RamTakenOutside(cfg, head, total, available);
  }

  lemma {:induction false} FloorIsShort(cfg: Limits, ram: Mib, total: Mib)
    requires cfg.minHostFreePercent >= 0.0 && (ram > 0.0 || (cfg.minHostFreePercent > 0.0 && total > 0.0))
    ensures ram > 0.0 - total * (cfg.minHostFreePercent / 100.0)
  {
    var share := cfg.minHostFreePercent / 100.0;
    assert total * share >= 0.0;
    assert share > 0.0 && total > 0.0 ==> total * share > 0.0;
  }

  /** The reasons for not holding can be trusted exactly so far: what a caller can read off the limits, the
      request and whether free memory is known decides it. */
  lemma {:induction false} FutilityRightExactlyWhenReliable(cfg: Limits, head: Row, why: Futility, known: bool)
    requires cfg.minHostFreePercent >= 0.0
    ensures FutilityRight(cfg, head, why, known) <==> FutilityReliable(cfg, head, why, known)
  {
    if FutilityReliable(cfg, head, why, known) {
      forall env: TickEnv, w: World, ended: set<JobId>, after: NodeSnapshot
        | env.cfg == cfg && (env.node.mem.available.Some? <==> known)
        ensures !Misled(env, w, head, why, ended, after)
      {
        FutilityIsSound(env, w, head, why, ended, after);
      }
    } else {
      var env, w, ended, after := UnreliableMisleads(cfg, head, why, known);
    }
  }
}
