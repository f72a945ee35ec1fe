/** Holding the queue for its starving head: what a hold keeps back, when holding is pointless, and
    how much holding one job may have in all. */
module Hold {
  import opened Wrappers
  import opened Resources
  import opened QueueRows
  import opened Devices
  import opened World

  // ---- what a hold guards ------------------------------------------------

  datatype Axis = Slot | Ram | Cpu | Gpu | Vram | Commit

  function Demand(request: ResourceRequest, axis: Axis): real {
    match axis
    case Slot => 1.0
    case Ram => request.ram
    case Cpu => request.cpus as real
    case Gpu => request.gpus as real
    case Vram => request.vram
    case Commit => request.ram + request.vram
  }

  /** The spare capacity along one axis; None where it is not known. */
  function LocalSpare(env: TickEnv, w: World, inFlight: nat, axis: Axis): Option<real> {
    var cap := CapacityOf(env.node);
    var reserved := Ledger(env.cfg, w);
    match axis
    case Slot => Some((env.slots - inFlight) as real)
    case Ram =>
      Some(Min(env.node.mem.available.GetOr<Mib>(0.0) - HostFloorMib(env.cfg, env.node), cap.usableRam - reserved.ram))
    case Cpu => Some((cap.usableCpus - reserved.cpus) as real)
    case Gpu =>
      if env.node.GpuUsable() then Some((|env.node.gpu.value.devices| - |InUse(w.running)|) as real) else None
    case Vram =>
      if env.node.GpuUsable() then Some(cap.usableVram - reserved.vram) else None
    case Commit =>
      var left := CommitLeft(env.node);
      if left.Some? then Some(left.value - CommitMargin(env.cfg, env.node)) else None
  }

  /** Starting `row` would eat into what `held` needs on this axis. */
  predicate Conflicts(env: TickEnv, w: World, inFlight: nat, row: Row, held: Row, axis: Axis) {
    var take := Demand(RequestFor(env.cfg, row), axis);
    var need := Demand(RequestFor(env.cfg, held), axis);
    var spare := LocalSpare(env, w, inFlight, axis);
    need > 0.0 && take > 0.0 && spare.Some? && spare.value - take < need
  }

  function HoldConflict(env: TickEnv, w: World, inFlight: nat, row: Row, held: Row): Option<Axis> {
    if Conflicts(env, w, inFlight, row, held, Slot) then Some(Slot)
    else if Conflicts(env, w, inFlight, row, held, Ram) then Some(Ram)
    else if Conflicts(env, w, inFlight, row, held, Cpu) then Some(Cpu)
    else if Conflicts(env, w, inFlight, row, held, Gpu) then Some(Gpu)
    else if Conflicts(env, w, inFlight, row, held, Vram) then Some(Vram)
    else if Conflicts(env, w, inFlight, row, held, Commit) then Some(Commit)
    else None
  }

  // ---- when holding is pointless -----------------------------------------

  datatype Futility = NothingToDrain | TooManyCpus | TooMuchRam | TooManyGpus | RamHeldOutside

  function HoldFutility(env: TickEnv, w: World, inFlight: nat, head: Row): Option<Futility> {
    var request := RequestFor(env.cfg, head);
    var cap := CapacityOf(env.node);
    if inFlight == 0 then Some(NothingToDrain)
    else if request.cpus > cap.usableCpus then Some(TooManyCpus)
    else if request.ram > cap.usableRam then Some(TooMuchRam)
    else if env.node.GpuUsable() && request.gpus > |env.node.gpu.value.devices| then Some(TooManyGpus)
    else if request.ram
            > env.node.mem.available.GetOr<Mib>(0.0) - HostFloorMib(env.cfg, env.node) + Ledger(env.cfg, w).ram
    then Some(RamHeldOutside)
    else None
  }

  /** A job could be started here: a slot, an admission and its devices. */
  predicate Startable(env: TickEnv, w: World, row: Row) {
    && w.InFlight() < env.slots
    && Admit(env.cfg, RequestFor(env.cfg, row), RunningRequests(env.cfg, w), env.node).Admitted?
    && AllocateFor(env, w, row).Some?
  }

  /** Some running jobs end: their rows finish and they are no longer followed. */
  function EndRows(rows: seq<Row>, ended: set<JobId>): seq<Row> {
    if rows == [] then []
    else [if rows[0].id in ended then rows[0].(state := Finished) else rows[0]] + EndRows(rows[1..], ended)
  }

  function EndJobs(w: World, ended: set<JobId>): World {
    World(EndRows(w.rows, ended), DropRunning(w.running, ended), DropAdopted(w.adopted, ended))
  }

  /** `after` is this machine once jobs holding `returned` MiB of declared RAM have ended: the hardware
      and the reserve are the same, and free memory rose by at most what they declared. Commit charge
      and device readings may have become anything, unless nothing ended at all. */
  ghost predicate DrainedTo(before: NodeSnapshot, after: NodeSnapshot, returned: real, nothingEnded: bool) {
    && after.mem.total == before.mem.total && after.cpus == before.cpus && after.reserve == before.reserve
    && (before.GpuUsable() <==> after.GpuUsable())
    && (before.GpuUsable() ==> |after.gpu.value.devices| == |before.gpu.value.devices|)
    && (before.mem.available.Some? <==> after.mem.available.Some?)
    && (before.mem.available.Some? ==> after.mem.available.value <= before.mem.available.value + returned)
    && (nothingEnded ==> after == before)
  }

  /** When a reason can be trusted, for a machine whose free memory is read (`known`) or not. Those about
      CPUs and RAM need admission to be enforced, unless the head asks for so little that they cannot be
      given; the last one, for a head asking for no RAM, needs the reading it is really about. */
  predicate FutilityReliable(cfg: Limits, head: Row, why: Futility, known: bool) {
    var request := RequestFor(cfg, head);
    match why
    case NothingToDrain => true
    case TooManyGpus => true
    case TooManyCpus => cfg.enforce || request.cpus <= 1
    case TooMuchRam => cfg.enforce || request.ram == 0.0
    case RamHeldOutside =>
      (cfg.enforce && (request.ram > 0.0 || known)) || (request.ram == 0.0 && cfg.minHostFreePercent == 0.0)
  }

  lemma {:induction false} NoJobsNoChange(w: World, ended: set<JobId>)
    requires w.InFlight() == 0
    requires ended <= w.Active()
    ensures EndJobs(w, ended) == w
  {
    assert w.running == [] && w.adopted == [];
    assert ended == {};
    EndNothing(w.rows);
  }

  lemma {:induction false} EndNothing(rows: seq<Row>)
    ensures EndRows(rows, {}) == rows
  {
    if rows != [] {
      EndNothing(rows[1..]);
    }
  }

  lemma {:induction false} FloorIsAPercentage(total: real, percent: real, free: real)
    requires total > 0.0
    requires free < total * (percent / 100.0)
    ensures 100.0 * free / total < percent
  {
    assert free / total < percent / 100.0;
    assert 100.0 * free / total == 100.0 * (free / total);
  }

  lemma {:induction false} BelowTheFloorIsAHardStop(cfg: Limits, node: NodeSnapshot)
    requires node.mem.available.Some? && node.mem.available.value < HostFloorMib(cfg, node)
    ensures HardStop(cfg, node).Some?
  {
    var total := node.mem.total.GetOr<Mib>(0.0);
    assert total > 0.0;
    FloorIsAPercentage(total, cfg.minHostFreePercent, node.mem.available.value);
  }

  /** The measured-RAM limit refuses, whatever is reserved: a request above what is free, or, for a
      request of nothing, a machine already below its floor. */
  lemma {:induction false} ShortOfRamIsRefused(
      cfg: Limits, request: ResourceRequest, running: seq<ResourceRequest>, node: NodeSnapshot)
    requires cfg.enforce
    requires request.ram > node.mem.available.GetOr<Mib>(0.0) - HostFloorMib(cfg, node)
    requires request.ram > 0.0 || node.mem.available.Some?
    ensures Admit(cfg, request, running, node).Refused?
  {
    if request.ram == 0.0 {
      BelowTheFloorIsAHardStop(cfg, node);
    }
  }

  /** The hardware and RAM reasons, judged on the drained machine with whatever is left running. */
  lemma {:induction false} FutileHoweverMuchDrains(
      cfg: Limits, request: ResourceRequest, node: NodeSnapshot, after: NodeSnapshot,
      held: Mib, left: seq<ResourceRequest>)
    requires cfg.enforce
    requires DrainedTo(node, after, held - SumReservations(left).ram, false)
    requires
      || request.cpus > CapacityOf(node).usableCpus
      || request.ram > CapacityOf(node).usableRam
      || (request.ram > node.mem.available.GetOr<Mib>(0.0) - HostFloorMib(cfg, node) + held
          && (request.ram > 0.0 || node.mem.available.Some?))
    ensures Admit(cfg, request, left, after).Refused?
  {
    if request.cpus > CapacityOf(node).usableCpus || request.ram > CapacityOf(node).usableRam {
      assert AdmitRam(cfg, request, SumReservations(left), after).Some?
          || (request.cpus > 0 && SumReservations(left).cpus + request.cpus > CapacityOf(after).usableCpus);
    } else {
      assert HostFloorMib(cfg, after) == HostFloorMib(cfg, node);
      var kept: Mib := SumReservations(left).ram;
      assert after.mem.available.GetOr<Mib>(0.0) <= node.mem.available.GetOr<Mib>(0.0) + held;
      ShortOfRamIsRefused(cfg, request, left, after);
    }
  }

  /** The reason misleads: the head cannot start now, the reason is given for not holding, and yet the
      head starts once some running jobs end, each giving back no more RAM than it declared. */
  ghost predicate Misled(env: TickEnv, w: World, head: Row, why: Futility, ended: set<JobId>, after: NodeSnapshot) {
    && HoldFutility(env, w, w.InFlight(), head) == Some(why)
    && !Startable(env, w, head)
    && ended <= w.Active()
    && DrainedTo(env.node, after, Ledger(env.cfg, w).ram - Ledger(env.cfg, EndJobs(w, ended)).ram, ended == {})
    && Startable(env.(node := after), EndJobs(w, ended), head)
  }

  /** A reason that cannot be given, because the head asks for too little. */
  lemma {:induction false} NeverGiven(env: TickEnv, w: World, head: Row, why: Futility)
    requires HoldFutility(env, w, w.InFlight(), head) == Some(why) && env.cfg.minHostFreePercent >= 0.0
    ensures why == TooManyCpus ==> RequestFor(env.cfg, head).cpus > 1
    ensures why == TooMuchRam ==> RequestFor(env.cfg, head).ram > 0.0
    ensures why == RamHeldOutside ==> RequestFor(env.cfg, head).ram > 0.0 || env.cfg.minHostFreePercent > 0.0
  {
  }

  /** A futile hold really is futile. A reliable reason never misleads, whichever running jobs end and
      whatever then becomes of commit charge and device readings. */
  lemma {:induction false} FutilityIsSound(
      env: TickEnv, w: World, head: Row, why: Futility, ended: set<JobId>, after: NodeSnapshot)
    requires env.cfg.minHostFreePercent >= 0.0
    requires FutilityReliable(env.cfg, head, why, env.node.mem.available.Some?)
    ensures !Misled(env, w, head, why, ended, after)
  {
    if Misled(env, w, head, why, ended, after) {
      var w' := EndJobs(w, ended);
      NeverGiven(env, w, head, why);
      if why == NothingToDrain {
        NoJobsNoChange(w, ended);
      } else if why == TooManyGpus {
        AllocationNeedsDevices(env.(node := after), w', head);
      } else {
        FutileHoweverMuchDrains(env.cfg, RequestFor(env.cfg, head), env.node, after, Ledger(env.cfg, w).ram,
                                RunningRequests(env.cfg, w'));
      }
    }
  }

  lemma {:induction false} AllocationNeedsDevices(env: TickEnv, w: World, row: Row)
    requires env.node.GpuUsable() && row.gpus > |env.node.gpu.value.devices|
    ensures AllocateFor(env, w, row).None?
  {
  }
}
