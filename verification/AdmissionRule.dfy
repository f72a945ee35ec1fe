/** The admission rule in the readings themselves: what a machine measures, what its reserve keeps back and
    what running jobs declared, with none of the figures the program derives on the way. */
module AdmissionRule {
  import opened Wrappers
  import opened Resources
  import opened QueueRows

  // ---- sums ---------------------------------------------------------------

  function RamIn(r: ResourceRequest): real { r.ram }
  function VramIn(r: ResourceRequest): real { r.vram }
  function CpusIn(r: ResourceRequest): real { r.cpus as real }
  function GpusIn(r: ResourceRequest): real { r.gpus as real }
  function SizeOf(d: GpuDevice): real { if d.total.Some? then d.total.value else 0.0 }

  /** One figure added up over a listing. */
  function Sum<T>(xs: seq<T>, figure: T -> real): real {
    if xs == [] then 0.0 else figure(xs[0]) + Sum(xs[1..], figure)
  }

  /** The ledger is what the jobs declared, figure by figure. */
  lemma {:induction false} LedgerIsTheSum(running: seq<ResourceRequest>)
    ensures var sum := SumReservations(running);
      && sum.ram == Sum(running, RamIn) && sum.vram == Sum(running, VramIn)
      && sum.cpus as real == Sum(running, CpusIn) && sum.gpus as real == Sum(running, GpusIn)
  {
    if running != [] {
      LedgerIsTheSum(running[1..]);
    }
  }

  lemma {:induction false} TotalsAreTheSum(devices: seq<GpuDevice>)
    ensures DeviceTotals(devices) == Sum(devices, SizeOf)
  {
    if devices != [] {
      TotalsAreTheSum(devices[1..]);
    }
  }

  ghost predicate HasFree(devices: seq<GpuDevice>, vram: real) {
    exists d :: d in devices && d.free.Some? && d.free.value >= vram
  }

  lemma {:induction false} BestFreeIsSomeones(devices: seq<GpuDevice>, vram: real)
    requires vram > 0.0
    ensures BestFree(devices) >= vram <==> HasFree(devices, vram)
  {
    if devices != [] {
      BestFreeIsSomeones(devices[1..], vram);
      assert devices == [devices[0]] + devices[1..];
      if HasFree(devices[1..], vram) {
        var d :| d in devices[1..] && d.free.Some? && d.free.value >= vram;
        assert d in devices;
      }
    }
  }

  // ---- the rule ----------------------------------------------------------

  function Reading(value: Option<Mib>): Mib {
    if value.Some? then value.value else 0.0
  }

  /** Neither hard stop holds. */
  predicate Healthy(cfg: Limits, mem: HostMemory) {
    && (mem.commitUsed.Some? && mem.commitLimit.Some? && mem.commitLimit.value > 0.0 ==>
          100.0 * mem.commitUsed.value < cfg.maxCommitPercent * mem.commitLimit.value)
    && (mem.total.Some? && mem.total.value > 0.0 && mem.available.Some? ==>
          100.0 * mem.available.value >= cfg.minHostFreePercent * mem.total.value)
  }

  /** Free memory less the request stays at the floor percentage. */
  predicate RamIsFree(cfg: Limits, ram: real, mem: HostMemory) {
    100.0 * (Reading(mem.available) - ram) >= cfg.minHostFreePercent * Reading(mem.total)
  }

  /** What is declared, with the request, stays within the machine less its reserve. */
  predicate RamIsLeft(ram: real, running: seq<ResourceRequest>, node: NodeSnapshot) {
    Sum(running, RamIn) + ram <= Reading(node.mem.total) - node.reserve.ram
  }

  /** One CPU may always be had, however much is reserved. */
  predicate CpusAreLeft(cpus: real, running: seq<ResourceRequest>, node: NodeSnapshot) {
    var all := Sum(running, CpusIn) + cpus;
    all <= (node.cpus - node.reserve.cpus) as real || all <= 1.0
  }

  ghost predicate VramIsFree(vram: real, node: NodeSnapshot) {
    node.gpu.Some? && node.gpu.value.available && HasFree(node.gpu.value.devices, vram)
  }

  predicate VramIsLeft(vram: real, running: seq<ResourceRequest>, node: NodeSnapshot) {
    node.gpu.Some? && node.gpu.value.available
    && Sum(running, VramIn) + vram <= Sum(node.gpu.value.devices, SizeOf) - node.reserve.vram
  }

  /** RAM and VRAM together fit under the commit ceiling, above what is in use and the margin kept. */
  predicate CommitIsLeft(cfg: Limits, wants: real, node: NodeSnapshot) {
    node.commitCeiling.Some? && node.mem.commitUsed.Some? ==>
      100.0 * (node.mem.commitUsed.value + wants) + cfg.commitHeadroomPercent * Reading(node.mem.total)
      <= 100.0 * node.commitCeiling.value
  }

  /** All that an enforced admission asks. What a request does not ask for is not asked about. */
  ghost predicate Fits(cfg: Limits, request: ResourceRequest, running: seq<ResourceRequest>, node: NodeSnapshot) {
    && Healthy(cfg, node.mem)
    && (request.ram > 0.0 ==> RamIsFree(cfg, request.ram, node.mem) && RamIsLeft(request.ram, running, node))
    && (request.cpus > 0 ==> CpusAreLeft(request.cpus as real, running, node))
    && (request.vram > 0.0 ==> VramIsFree(request.vram, node) && VramIsLeft(request.vram, running, node))
    && (request.ram + request.vram > 0.0 ==> CommitIsLeft(cfg, request.ram + request.vram, node))
  }

  // ---- percentages -------------------------------------------------------

  lemma {:induction false} Crosswise(part: real, whole: real, percent: real)
    requires whole > 0.0
    ensures 100.0 * part / whole >= percent <==> 100.0 * part >= percent * whole
  {
    var share := 100.0 * part / whole;
    assert share * whole == 100.0 * part;
    assert share >= percent ==> share * whole >= percent * whole;
    assert share < percent ==> share * whole < percent * whole;
  }

  lemma {:induction false} Percentage(whole: real, percent: real)
    ensures 100.0 * (whole * (percent / 100.0)) == percent * whole
  {
  }

  lemma {:induction false} HealthyMeansNoStop(cfg: Limits, node: NodeSnapshot)
    ensures HardStop(cfg, node).None? <==> Healthy(cfg, node.mem)
  {
    var mem := node.mem;
    if mem.commitUsed.Some? && mem.commitLimit.Some? && mem.commitLimit.value > 0.0 {
      Crosswise(mem.commitUsed.value, mem.commitLimit.value, cfg.maxCommitPercent);
    }
    if mem.total.Some? && mem.total.value > 0.0 && mem.available.Some? {
      Crosswise(mem.available.value, mem.total.value, cfg.minHostFreePercent);
    }
  }

  lemma {:induction false} RamFits(
      cfg: Limits, request: ResourceRequest, running: seq<ResourceRequest>, node: NodeSnapshot)
    requires request.ram > 0.0
    ensures request.ram <= node.mem.available.GetOr<Mib>(0.0) - HostFloorMib(cfg, node)
      <==> RamIsFree(cfg, request.ram, node.mem)
    ensures SumReservations(running).ram + request.ram <= CapacityOf(node).usableRam
      <==> RamIsLeft(request.ram, running, node)
  {
    LedgerIsTheSum(running);
    Percentage(CapacityOf(node).totalRam, cfg.minHostFreePercent);
  }

  lemma {:induction false} VramFits(request: ResourceRequest, running: seq<ResourceRequest>, node: NodeSnapshot)
    requires request.vram > 0.0 && node.GpuUsable()
    ensures request.vram <= BestFree(node.gpu.value.devices) <==> VramIsFree(request.vram, node)
    ensures SumReservations(running).vram + request.vram <= CapacityOf(node).usableVram
      <==> VramIsLeft(request.vram, running, node)
  {
    LedgerIsTheSum(running);
    TotalsAreTheSum(node.gpu.value.devices);
    BestFreeIsSomeones(node.gpu.value.devices, request.vram);
  }

  lemma {:induction false} CommitFits(cfg: Limits, request: ResourceRequest, node: NodeSnapshot)
    ensures AdmitCommit(cfg, request, node).None?
      <==> request.ram + request.vram == 0.0 || CommitIsLeft(cfg, request.ram + request.vram, node)
  {
    Percentage(CapacityOf(node).totalRam, cfg.commitHeadroomPercent);
  }

  lemma {:induction false} CpusFit(
      request: ResourceRequest, running: seq<ResourceRequest>, node: NodeSnapshot)
    ensures SumReservations(running).cpus + request.cpus <= CapacityOf(node).usableCpus
      <==> CpusAreLeft(request.cpus as real, running, node)
  {
    LedgerIsTheSum(running);
  }

  // ---- main results ------------------------------------------------------

  /** An enforced admission is granted exactly when everything fits, and an unenforced one always. */
  lemma {:induction false} AdmittedExactlyWhenItFits(
      cfg: Limits, request: ResourceRequest, running: seq<ResourceRequest>, node: NodeSnapshot)
    ensures Admit(cfg, request, running, node).Admitted? <==> !cfg.enforce || Fits(cfg, request, running, node)
  {
    HealthyMeansNoStop(cfg, node);
    CpusFit(request, running, node);
    CommitFits(cfg, request, node);
    if request.ram > 0.0 {
      RamFits(cfg, request, running, node);
    }
    if request.vram > 0.0 && node.GpuUsable() {
      VramFits(request, running, node);
    }
  }

  /** What each refusal says is so. */
  ghost predicate Tells(
      cfg: Limits, request: ResourceRequest, running: seq<ResourceRequest>, node: NodeSnapshot, why: Refusal)
  {
    match why
    case CommitCharge =>
      && node.mem.commitUsed.Some? && node.mem.commitLimit.Some?
      && 100.0 * node.mem.commitUsed.value >= cfg.maxCommitPercent * node.mem.commitLimit.value
    case HostFloor =>
      && node.mem.available.Some? && node.mem.total.Some?
      && 100.0 * node.mem.available.value < cfg.minHostFreePercent * node.mem.total.value
    case RamMeasured => request.ram > 0.0 && !RamIsFree(cfg, request.ram, node.mem)
    case RamLedger => request.ram > 0.0 && !RamIsLeft(request.ram, running, node)
    case CpuLedger => request.cpus > 0 && !CpusAreLeft(request.cpus as real, running, node)
    case NoGpu => request.vram > 0.0 && (node.gpu.None? || !node.gpu.value.available)
    case VramMeasured => request.vram > 0.0 && !VramIsFree(request.vram, node)
    case VramLedger => request.vram > 0.0 && !VramIsLeft(request.vram, running, node)
    case CommitHeadroom => request.ram + request.vram > 0.0 && !CommitIsLeft(cfg, request.ram + request.vram, node)
  }

  lemma {:induction false} RefusalsTellTheTruth(
      cfg: Limits, request: ResourceRequest, running: seq<ResourceRequest>, node: NodeSnapshot)
    requires Admit(cfg, request, running, node).Refused?
    ensures Tells(cfg, request, running, node, Admit(cfg, request, running, node).why)
  {
    CpusFit(request, running, node);
    CommitFits(cfg, request, node);
    if request.ram > 0.0 {
      RamFits(cfg, request, running, node);
    }
    if request.vram > 0.0 && node.GpuUsable() {
      VramFits(request, running, node);
    }
    var mem := node.mem;
    if mem.commitUsed.Some? && mem.commitLimit.Some? && mem.commitLimit.value > 0.0 {
      Crosswise(mem.commitUsed.value, mem.commitLimit.value, cfg.maxCommitPercent);
    }
    if mem.total.Some? && mem.total.value > 0.0 && mem.available.Some? {
      Crosswise(mem.available.value, mem.total.value, cfg.minHostFreePercent);
    }
  }

  /** What a row asks for is what it declared, and where it declared nothing the configured default. */
  lemma {:induction false} RowsAskAsDeclared(cfg: Limits, row: Row)
    ensures var asks := RequestFor(cfg, row);
      && (asks.ram == if row.ram == None then cfg.defaultRam else row.ram.value)
      && (asks.vram == if row.vram == None then cfg.defaultVram else row.vram.value)
      && (asks.cpus == if row.cpus == None then cfg.defaultCpus else row.cpus.value)
      && asks.gpus == row.gpus
  {
  }
}
