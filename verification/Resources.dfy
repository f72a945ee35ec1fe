/** Admission control: may one request start on one machine, given what already runs there?

    A request has to pass two limits: the memory that is free as measured, and the sum of what the
    running jobs reserved. Wait-reason text is modelled as an enumeration. */
module Resources {
  import opened Wrappers

  type Mib = m: real | 0.0 <= m

  datatype ResourceRequest = ResourceRequest(ram: Mib, vram: Mib, cpus: nat, gpus: nat)

  function Nothing(): ResourceRequest {
    ResourceRequest(0.0, 0.0, 0, 0)
  }

  datatype HostMemory = HostMemory(
    total: Option<Mib>, available: Option<Mib>, commitUsed: Option<Mib>, commitLimit: Option<Mib>)
  {
    /** Unknown when the machine's size is unknown or zero, or its free memory was not read. */
    function FreePercent(): Option<real> {
      if total.None? || total.value == 0.0 || available.None? then None
      else Some(100.0 * available.value / total.value)
    }

    function CommitPercent(): Option<real> {
      if commitLimit.None? || commitLimit.value == 0.0 || commitUsed.None? then None
      else Some(100.0 * commitUsed.value / commitLimit.value)
    }
  }

  datatype GpuDevice = GpuDevice(index: int, total: Option<Mib>, used: Option<Mib>, free: Option<Mib>) {
    function FreePercent(): Option<real> {
      if total.None? || total.value == 0.0 then None
      else if free.Some? then Some(100.0 * free.value / total.value)
      else if used.Some? then Some(100.0 * (total.value - used.value) / total.value)
      else None
    }
  }

  datatype GpuInfo = GpuInfo(available: bool, devices: seq<GpuDevice>)

  /** Headroom never handed out. Read live, so any figure may appear here, even a negative one. */
  datatype Reserve = Reserve(ram: real, vram: real, cpus: int)

  datatype NodeSnapshot = NodeSnapshot(
    mem: HostMemory, gpu: Option<GpuInfo>, cpus: int, commitCeiling: Option<real>, reserve: Reserve)
  {
    predicate GpuUsable() {
      gpu.Some? && gpu.value.available
    }
  }

  datatype Limits = Limits(
    enforce: bool,
    defaultRam: Mib, defaultVram: Mib, defaultCpus: nat,
    maxCommitPercent: real, minHostFreePercent: real, commitHeadroomPercent: real)

  datatype Capacity = Capacity(
    totalRam: Mib, usableRam: Mib, totalCpus: int, usableCpus: int, totalVram: Mib, usableVram: Mib)

  function DeviceTotals(devices: seq<GpuDevice>): (sum: Mib) {
    if devices == [] then 0.0
    else devices[0].total.GetOr<Mib>(0.0) + DeviceTotals(devices[1..])
  }

  function BestFree(devices: seq<GpuDevice>): (best: Mib) {
    if devices == [] then 0.0
    else Max(devices[0].free.GetOr<Mib>(0.0), BestFree(devices[1..]))
  }

  function CapacityOf(node: NodeSnapshot): Capacity {
    var totalRam: Mib := node.mem.total.GetOr<Mib>(0.0);
    var totalVram: Mib := if node.GpuUsable() then DeviceTotals(node.gpu.value.devices) else 0.0;
    Capacity(
      totalRam, Max(0.0, totalRam - node.reserve.ram),
      node.cpus, MaxInt(1, node.cpus - node.reserve.cpus),
      totalVram, Max(0.0, totalVram - node.reserve.vram))
  }

  function Plus(a: ResourceRequest, b: ResourceRequest): ResourceRequest {
    ResourceRequest(a.ram + b.ram, a.vram + b.vram, a.cpus + b.cpus, a.gpus + b.gpus)
  }

  function SumReservations(running: seq<ResourceRequest>): ResourceRequest {
    if running == [] then Nothing()
    else Plus(running[0], SumReservations(running[1..]))
  }

  /** `small` asks for no more than `big` on every axis. */
  predicate Within(small: ResourceRequest, big: ResourceRequest) {
    small.ram <= big.ram && small.vram <= big.vram && small.cpus <= big.cpus && small.gpus <= big.gpus
  }

  datatype Refusal =
    | CommitCharge | HostFloor | RamMeasured | RamLedger | CpuLedger
    | NoGpu | VramMeasured | VramLedger | CommitHeadroom

  datatype Decision = Admitted | Refused(why: Refusal)

  /** Host memory kept free for everybody else, in MiB. */
  function HostFloorMib(cfg: Limits, node: NodeSnapshot): real {
    CapacityOf(node).totalRam * (cfg.minHostFreePercent / 100.0)
  }

  function CommitMargin(cfg: Limits, node: NodeSnapshot): real {
    CapacityOf(node).totalRam * (cfg.commitHeadroomPercent / 100.0)
  }

  /** Commit still below the ceiling, when both readings exist. */
  function CommitLeft(node: NodeSnapshot): Option<real> {
    if node.commitCeiling.Some? && node.mem.commitUsed.Some?
    then Some(node.commitCeiling.value - node.mem.commitUsed.value)
    else None
  }

  /** The stops that look at the machine and not at the request. */
  function HardStop(cfg: Limits, node: NodeSnapshot): Option<Refusal> {
    var commit := node.mem.CommitPercent();
    var free := node.mem.FreePercent();
    if commit.Some? && commit.value >= cfg.maxCommitPercent then Some(CommitCharge)
    else if free.Some? && free.value < cfg.minHostFreePercent then Some(HostFloor)
    else None
  }

  function AdmitRam(cfg: Limits, request: ResourceRequest, reserved: ResourceRequest, node: NodeSnapshot)
    : Option<Refusal>
  {
    if request.ram <= 0.0 then None
    else if request.ram > node.mem.available.GetOr<Mib>(0.0) - HostFloorMib(cfg, node) then Some(RamMeasured)
    else if reserved.ram + request.ram > CapacityOf(node).usableRam then Some(RamLedger)
    else None
  }

  function AdmitVram(request: ResourceRequest, reserved: ResourceRequest, node: NodeSnapshot): Option<Refusal> {
    if request.vram <= 0.0 then None
    else if !node.GpuUsable() then Some(NoGpu)
    else if request.vram > BestFree(node.gpu.value.devices) then Some(VramMeasured)
    else if reserved.vram + request.vram > CapacityOf(node).usableVram then Some(VramLedger)
    else None
  }

  function AdmitCommit(cfg: Limits, request: ResourceRequest, node: NodeSnapshot): Option<Refusal> {
    var left := CommitLeft(node);
    if left.Some? && request.ram + request.vram > Max(0.0, left.value - CommitMargin(cfg, node))
    then Some(CommitHeadroom)
    else None
  }

  function Admit(cfg: Limits, request: ResourceRequest, running: seq<ResourceRequest>, node: NodeSnapshot): Decision {
    if !cfg.enforce then Admitted
    else
      var reserved := SumReservations(running);
      var stop := HardStop(cfg, node);
      var ram := AdmitRam(cfg, request, reserved, node);
      var vram := AdmitVram(request, reserved, node);
      var commit := AdmitCommit(cfg, request, node);
      if stop.Some? then Refused(stop.value)
      else if ram.Some? then Refused(ram.value)
      else if request.cpus > 0 && reserved.cpus + request.cpus > CapacityOf(node).usableCpus then Refused(CpuLedger)
      else if vram.Some? then Refused(vram.value)
      else if commit.Some? then Refused(commit.value)
      else Admitted
  }

  // ---- sums ------------------------------------------------------------

  lemma {:induction false} PlusLaws(a: ResourceRequest, b: ResourceRequest, c: ResourceRequest)
    ensures Plus(Plus(a, b), c) == Plus(a, Plus(b, c))
    ensures Plus(a, b) == Plus(b, a)
    ensures Plus(Nothing(), a) == a
  {
  }

  lemma {:induction false} SumAppendOne(a: seq<ResourceRequest>, x: ResourceRequest)
    ensures SumReservations(a + [x]) == Plus(SumReservations(a), x)
  {
    var all := a + [x];
    if a == [] {
      assert all[1..] == [];
      PlusLaws(x, Nothing(), Nothing());
    } else {
      var tail := a[1..];
      assert all[1..] == tail + [x];
      SumAppendOne(tail, x);
      PlusLaws(a[0], SumReservations(tail), x);
    }
  }

  /** Refusal is upward closed: on one machine, a larger request beside larger reservations is refused
      whenever the smaller was. */
  lemma {:induction false} AdmitOnlyGetsHarder(
      cfg: Limits, small: ResourceRequest, big: ResourceRequest,
      fewer: seq<ResourceRequest>, more: seq<ResourceRequest>, node: NodeSnapshot)
    requires Within(small, big)
    requires Within(SumReservations(fewer), SumReservations(more))
    requires Admit(cfg, small, fewer, node).Refused?
    ensures Admit(cfg, big, more, node).Refused?
  {
  }

  /** What an enforced admission leaves behind: no ledger has grown past what the machine has less its
      reserve. One CPU may always be had. */
  ghost predicate LedgerGrowth(before: ResourceRequest, after: ResourceRequest, node: NodeSnapshot) {
    var vram := if node.gpu.Some? && node.gpu.value.available then DeviceTotals(node.gpu.value.devices) else 0.0;
    && (after.ram <= before.ram || after.ram <= node.mem.total.GetOr<Mib>(0.0) - node.reserve.ram)
    && (after.vram <= before.vram || after.vram <= vram - node.reserve.vram)
    && (after.cpus <= before.cpus || after.cpus <= node.cpus - node.reserve.cpus || after.cpus <= 1)
  }

  lemma {:induction false} AdmittedStaysInLedger(
      cfg: Limits, request: ResourceRequest, running: seq<ResourceRequest>, node: NodeSnapshot)
    requires cfg.enforce && Admit(cfg, request, running, node).Admitted?
    ensures LedgerGrowth(SumReservations(running), SumReservations(running + [request]), node)
  {
    SumAppendOne(running, request);
  }
}
