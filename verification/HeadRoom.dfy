/** What a hold keeps for its head, in the limits admission will put to it: the head's slot, its GPUs, and the
    RAM, CPUs, VRAM and commit that it would be admitted on. */
module HeadRoom {
  import opened Wrappers
  import opened Resources
  import opened AdmissionRule
  import opened QueueRows
  import opened Devices
  import opened World
  import opened Hold
  import opened Scan
  import opened StepEffects
  import opened TickTheorems

  /** Devices some running job was given. */
  ghost function Taken(running: seq<RunningJob>): set<int> {
    set k, d | 0 <= k < |running| && d in running[k].devices :: d
  }

  lemma {:induction false} InUseAreTaken(running: seq<RunningJob>)
    ensures InUse(running) == Taken(running)
  {
    if running != [] {
      var n := |running| - 1;
      InUseAreTaken(running[..n]);
      assert running == running[..n] + [running[n]];
      forall d ensures d in Taken(running) <==> d in Taken(running[..n]) || d in running[n].devices {
        if d in Taken(running[..n]) {
          var k :| 0 <= k < n && d in running[..n][k].devices;
          assert d in running[k].devices;
        }
        if d in Taken(running) {
          var k :| 0 <= k < |running| && d in running[k].devices;
          assert k < n ==> d in running[..n][k].devices;
        }
      }
    }
  }

  // ---- the limits as the head will meet them -----------------------------

  predicate HasGpu(node: NodeSnapshot) {
    node.gpu.Some? && node.gpu.value.available
  }

  /** `beside` is RAM somebody else is about to use, `running` what is declared. */
  predicate RamWillDo(env: TickEnv, head: ResourceRequest, beside: real, running: seq<ResourceRequest>) {
    RamIsFree(env.cfg, beside + head.ram, env.node.mem) && RamIsLeft(head.ram, running, env.node)
  }

  predicate CpusWillDo(env: TickEnv, head: ResourceRequest, running: seq<ResourceRequest>) {
    CpusAreLeft(head.cpus as real, running, env.node)
  }

  predicate VramWillDo(env: TickEnv, head: ResourceRequest, running: seq<ResourceRequest>) {
    VramIsLeft(head.vram, running, env.node)
  }

  predicate CommitWillDo(env: TickEnv, head: ResourceRequest, beside: real) {
    CommitIsLeft(env.cfg, beside + head.ram + head.vram, env.node)
  }

  ghost predicate GpusWillDo(env: TickEnv, head: ResourceRequest, more: nat, running: seq<RunningJob>)
    requires HasGpu(env.node)
  {
    |InUse(running)| + more + head.gpus <= |env.node.gpu.value.devices|
  }

  /** One job's start leaves, on every axis both it and the head use, what the head needs there. */
  ghost predicate LeavesRoom(env: TickEnv, w: World, inFlight: nat, row: Row, held: Row) {
    var mine, head := RequestFor(env.cfg, row), RequestFor(env.cfg, held);
    var running := RunningRequests(env.cfg, w) + [mine];
    && inFlight + 1 < env.slots
    && (head.ram > 0.0 && mine.ram > 0.0 ==> RamWillDo(env, head, mine.ram, running))
    && (head.cpus > 0 && mine.cpus > 0 ==> CpusWillDo(env, head, running))
    && (head.gpus > 0 && mine.gpus > 0 && HasGpu(env.node) ==> GpusWillDo(env, head, mine.gpus, w.running))
    && (head.vram > 0.0 && mine.vram > 0.0 && HasGpu(env.node) ==> VramWillDo(env, head, running))
    && (head.ram + head.vram > 0.0 && mine.ram + mine.vram > 0.0 ==>
          CommitWillDo(env, head, mine.ram + mine.vram))
  }

  // ---- axis by axis ------------------------------------------------------

  lemma {:induction false} OneMoreDeclared(running: seq<ResourceRequest>, mine: ResourceRequest)
    ensures Sum(running + [mine], RamIn) == Sum(running, RamIn) + mine.ram
    ensures Sum(running + [mine], VramIn) == Sum(running, VramIn) + mine.vram
    ensures Sum(running + [mine], CpusIn) == Sum(running, CpusIn) + mine.cpus as real
  {
    LedgerIsTheSum(running);
    LedgerIsTheSum(running + [mine]);
    SumAppendOne(running, mine);
  }

  lemma {:induction false} RamConflict(env: TickEnv, w: World, inFlight: nat, row: Row, held: Row)
    ensures var mine, head := RequestFor(env.cfg, row), RequestFor(env.cfg, held);
      !Conflicts(env, w, inFlight, row, held, Ram) <==>
      (head.ram > 0.0 && mine.ram > 0.0 ==>
         RamWillDo(env, head, mine.ram, RunningRequests(env.cfg, w) + [mine]))
  {
    LedgerIsTheSum(RunningRequests(env.cfg, w));
    OneMoreDeclared(RunningRequests(env.cfg, w), RequestFor(env.cfg, row));
    Percentage(CapacityOf(env.node).totalRam, env.cfg.minHostFreePercent);
  }

  lemma {:induction false} CpuConflict(env: TickEnv, w: World, inFlight: nat, row: Row, held: Row)
    ensures var mine, head := RequestFor(env.cfg, row), RequestFor(env.cfg, held);
      !Conflicts(env, w, inFlight, row, held, Cpu) <==>
      (head.cpus > 0 && mine.cpus > 0 ==> CpusWillDo(env, head, RunningRequests(env.cfg, w) + [mine]))
  {
    LedgerIsTheSum(RunningRequests(env.cfg, w));
    OneMoreDeclared(RunningRequests(env.cfg, w), RequestFor(env.cfg, row));
  }

  lemma {:induction false} VramConflict(env: TickEnv, w: World, inFlight: nat, row: Row, held: Row)
    ensures var mine, head := RequestFor(env.cfg, row), RequestFor(env.cfg, held);
      !Conflicts(env, w, inFlight, row, held, Vram) <==>
      (head.vram > 0.0 && mine.vram > 0.0 && HasGpu(env.node) ==>
         VramWillDo(env, head, RunningRequests(env.cfg, w) + [mine]))
  {
    LedgerIsTheSum(RunningRequests(env.cfg, w));
    OneMoreDeclared(RunningRequests(env.cfg, w), RequestFor(env.cfg, row));
    if HasGpu(env.node) {
      TotalsAreTheSum(env.node.gpu.value.devices);
    }
  }

  lemma {:induction false} CommitConflict(env: TickEnv, w: World, inFlight: nat, row: Row, held: Row)
    ensures var mine, head := RequestFor(env.cfg, row), RequestFor(env.cfg, held);
      !Conflicts(env, w, inFlight, row, held, Commit) <==>
      (head.ram + head.vram > 0.0 && mine.ram + mine.vram > 0.0 ==>
         CommitWillDo(env, head, mine.ram + mine.vram))
  {
    Percentage(CapacityOf(env.node).totalRam, env.cfg.commitHeadroomPercent);
  }

  lemma {:induction false} GpuConflict(env: TickEnv, w: World, inFlight: nat, row: Row, held: Row)
    ensures var mine, head := RequestFor(env.cfg, row), RequestFor(env.cfg, held);
      !Conflicts(env, w, inFlight, row, held, Gpu) <==>
      (head.gpus > 0 && mine.gpus > 0 && HasGpu(env.node) ==> GpusWillDo(env, head, mine.gpus, w.running))
  {
  }

  // ---- main results ------------------------------------------------------

  /** A hold lets a job start exactly when that leaves its head what it needs, limit by limit: what the head
      would pass now it still passes with the job in the ledger and its RAM and commit in use. */
  lemma {:induction false} HoldLetsThroughExactlyWhatLeavesRoom(
      env: TickEnv, w: World, inFlight: nat, row: Row, held: Row)
    ensures HoldConflict(env, w, inFlight, row, held).None? <==> LeavesRoom(env, w, inFlight, row, held)
  {
    RamConflict(env, w, inFlight, row, held);
    CpuConflict(env, w, inFlight, row, held);
    GpuConflict(env, w, inFlight, row, held);
    VramConflict(env, w, inFlight, row, held);
    CommitConflict(env, w, inFlight, row, held);
  }

  lemma {:induction false} NoConflictAnywhere(
      env: TickEnv, w: World, inFlight: nat, row: Row, held: Row, axis: Axis)
    requires HoldConflict(env, w, inFlight, row, held).None?
    ensures !Conflicts(env, w, inFlight, row, held, axis)
  {
  }

  /** And what the head would not pass now, a job that starts does not use at all. */
  lemma {:induction false} NothingTheHeadLacksIsTaken(env: TickEnv, w: World, inFlight: nat, row: Row, held: Row)
    requires HoldConflict(env, w, inFlight, row, held).None?
    ensures var mine, head := RequestFor(env.cfg, row), RequestFor(env.cfg, held);
      var running := RunningRequests(env.cfg, w);
      && (head.ram > 0.0 && !RamWillDo(env, head, 0.0, running) ==> mine.ram == 0.0)
      && (head.cpus > 0 && !CpusWillDo(env, head, running) ==> mine.cpus == 0)
      && (head.vram > 0.0 && HasGpu(env.node) && !VramWillDo(env, head, running) ==> mine.vram == 0.0)
      && (head.ram + head.vram > 0.0 && !CommitWillDo(env, head, 0.0) ==> mine.ram == 0.0 && mine.vram == 0.0)
      && (head.gpus > 0 && HasGpu(env.node) && !GpusWillDo(env, head, 0, w.running) ==> mine.gpus == 0)
  {
    forall axis ensures !Conflicts(env, w, inFlight, row, held, axis) {
      NoConflictAnywhere(env, w, inFlight, row, held, axis);
    }
    LedgersTheHeadLacks(env, w, inFlight, row, held);
    GpuConflict(env, w, inFlight, row, held);
  }

  lemma {:induction false} LedgersTheHeadLacks(env: TickEnv, w: World, inFlight: nat, row: Row, held: Row)
    requires forall axis :: !Conflicts(env, w, inFlight, row, held, axis)
    ensures var mine, head := RequestFor(env.cfg, row), RequestFor(env.cfg, held);
      var running := RunningRequests(env.cfg, w);
      && (head.ram > 0.0 && !RamWillDo(env, head, 0.0, running) ==> mine.ram == 0.0)
      && (head.cpus > 0 && !CpusWillDo(env, head, running) ==> mine.cpus == 0)
      && (head.vram > 0.0 && HasGpu(env.node) && !VramWillDo(env, head, running) ==> mine.vram == 0.0)
      && (head.ram + head.vram > 0.0 && !CommitWillDo(env, head, 0.0) ==> mine.ram == 0.0 && mine.vram == 0.0)
  {
    RamConflict(env, w, inFlight, row, held);
    CpuConflict(env, w, inFlight, row, held);
    VramConflict(env, w, inFlight, row, held);
    CommitConflict(env, w, inFlight, row, held);
    OneMoreDeclared(RunningRequests(env.cfg, w), RequestFor(env.cfg, row));
  }

  // ---- over a tick -------------------------------------------------------

  /** What the head has at this point of a tick, limit by limit. */
  ghost predicate SlotIsKept(env: TickEnv, s: State, t: State) {
    if s.inFlight < env.slots then t.inFlight < env.slots else t.inFlight == s.inFlight
  }

  ghost predicate RamIsKept(env: TickEnv, s: State, t: State, head: ResourceRequest) {
    if RamWillDo(env, head, 0.0, RunningRequests(env.cfg, s.w))
    then RamWillDo(env, head, 0.0, RunningRequests(env.cfg, t.w))
    else Ledger(env.cfg, t.w).ram == Ledger(env.cfg, s.w).ram
  }

  ghost predicate CpusAreKept(env: TickEnv, s: State, t: State, head: ResourceRequest) {
    if CpusWillDo(env, head, RunningRequests(env.cfg, s.w))
    then CpusWillDo(env, head, RunningRequests(env.cfg, t.w))
    else Ledger(env.cfg, t.w).cpus == Ledger(env.cfg, s.w).cpus
  }

  ghost predicate VramIsKept(env: TickEnv, s: State, t: State, head: ResourceRequest) {
    if VramWillDo(env, head, RunningRequests(env.cfg, s.w))
    then VramWillDo(env, head, RunningRequests(env.cfg, t.w))
    else Ledger(env.cfg, t.w).vram == Ledger(env.cfg, s.w).vram
  }

  ghost predicate GpusAreKept(env: TickEnv, s: State, t: State, head: ResourceRequest)
    requires HasGpu(env.node)
  {
    if GpusWillDo(env, head, 0, s.w.running) then GpusWillDo(env, head, 0, t.w.running)
    else InUse(t.w.running) == InUse(s.w.running)
  }

  ghost predicate Kept(env: TickEnv, s: State, t: State, held: Row) {
    var head := RequestFor(env.cfg, held);
    && SlotIsKept(env, s, t)
    && (head.ram > 0.0 ==> RamIsKept(env, s, t, head))
    && (head.cpus > 0 ==> CpusAreKept(env, s, t, head))
    && (head.vram > 0.0 && HasGpu(env.node) ==> VramIsKept(env, s, t, head))
    && (head.gpus > 0 && HasGpu(env.node) ==> GpusAreKept(env, s, t, head))
  }

  lemma {:induction false} LaunchDeclares(env: TickEnv, s: State, t: State, row: Row)
    requires Launched(env, s, t, row)
    ensures var mine := RequestFor(env.cfg, row);
      var before, after := RunningRequests(env.cfg, s.w), RunningRequests(env.cfg, t.w);
      && Sum(after, RamIn) == Sum(before + [mine], RamIn) && Sum(after, VramIn) == Sum(before + [mine], VramIn)
      && Sum(after, CpusIn) == Sum(before + [mine], CpusIn)
    ensures Ledger(env.cfg, t.w) == Plus(RequestFor(env.cfg, row), Ledger(env.cfg, s.w))
  {
    LedgerIsTheSum(RunningRequests(env.cfg, s.w));
    LedgerIsTheSum(RunningRequests(env.cfg, t.w));
    OneMoreDeclared(RunningRequests(env.cfg, s.w), RequestFor(env.cfg, row));
  }

  lemma {:induction false} LaunchKeepsLedgers(env: TickEnv, s: State, t: State, row: Row, held: Row)
    requires Launched(env, s, t, row) && s.held == Some(held)
    ensures var head := RequestFor(env.cfg, held);
      && SlotIsKept(env, s, t)
      && (head.ram > 0.0 ==> RamIsKept(env, s, t, head))
      && (head.cpus > 0 ==> CpusAreKept(env, s, t, head))
      && (head.vram > 0.0 && HasGpu(env.node) ==> VramIsKept(env, s, t, head))
  {
    LaunchDeclares(env, s, t, row);
    HoldLetsThroughExactlyWhatLeavesRoom(env, s.w, s.inFlight, row, held);
    NothingTheHeadLacksIsTaken(env, s.w, s.inFlight, row, held);
    OneMoreDeclared(RunningRequests(env.cfg, s.w), RequestFor(env.cfg, row));
  }

  lemma {:induction false} LaunchKeepsGpus(env: TickEnv, s: State, t: State, row: Row, held: Row)
    requires Launched(env, s, t, row) && s.held == Some(held) && HasGpu(env.node)
    requires RequestFor(env.cfg, held).gpus > 0
    ensures GpusAreKept(env, s, t, RequestFor(env.cfg, held))
  {
    HoldLetsThroughExactlyWhatLeavesRoom(env, s.w, s.inFlight, row, held);
    NothingTheHeadLacksIsTaken(env, s.w, s.inFlight, row, held);
    LaunchTakesDevices(env, s, t, row);
  }

  lemma {:induction false} QuietKeepsAll(env: TickEnv, s: State, t: State, held: Row)
    requires Quiet(env.cfg, s.w, t.w) && t.inFlight == s.inFlight
    ensures Kept(env, s, t, held)
  {
    LedgerIsTheSum(RunningRequests(env.cfg, s.w));
    LedgerIsTheSum(RunningRequests(env.cfg, t.w));
  }

  lemma {:induction false} TurnKeeps(env: TickEnv, s: State, t: State, row: Row, held: Row)
    requires Turn(env, s, t, row) && s.held == Some(held)
    ensures Kept(env, s, t, held)
  {
    if t.inFlight == s.inFlight {
      QuietKeepsAll(env, s, t, held);
    } else {
      LaunchKeepsLedgers(env, s, t, row, held);
      if HasGpu(env.node) && RequestFor(env.cfg, held).gpus > 0 {
        LaunchKeepsGpus(env, s, t, row, held);
      }
    }
  }

  lemma {:induction false} SameLedgerSameAnswer(env: TickEnv, s: State, t: State, head: ResourceRequest)
    ensures Ledger(env.cfg, t.w).ram == Ledger(env.cfg, s.w).ram ==>
      (RamWillDo(env, head, 0.0, RunningRequests(env.cfg, t.w))
       <==> RamWillDo(env, head, 0.0, RunningRequests(env.cfg, s.w)))
    ensures Ledger(env.cfg, t.w).cpus == Ledger(env.cfg, s.w).cpus ==>
      (CpusWillDo(env, head, RunningRequests(env.cfg, t.w))
       <==> CpusWillDo(env, head, RunningRequests(env.cfg, s.w)))
    ensures Ledger(env.cfg, t.w).vram == Ledger(env.cfg, s.w).vram ==>
      (VramWillDo(env, head, RunningRequests(env.cfg, t.w))
       <==> VramWillDo(env, head, RunningRequests(env.cfg, s.w)))
  {
    LedgerIsTheSum(RunningRequests(env.cfg, s.w));
    LedgerIsTheSum(RunningRequests(env.cfg, t.w));
  }

  lemma {:induction false} KeptTwice(env: TickEnv, s: State, t: State, u: State, held: Row)
    requires Kept(env, s, t, held) && Kept(env, t, u, held)
    ensures Kept(env, s, u, held)
  {
    SameLedgerSameAnswer(env, s, t, RequestFor(env.cfg, held));
  }

  /** Over a tick, once the queue is held: every limit the head would pass it still passes at the end, whatever
      has started, and of what it lacks nothing has been taken. */
  lemma {:induction false} HeadKeepsItsRoom(
      env: TickEnv, ts: seq<State>, queue: seq<Row>, i: nat, j: nat, held: Row)
    requires Turns(env, ts, queue) && i <= j <= |queue| && ts[i].held == Some(held)
    ensures Kept(env, ts[i], ts[j], held) && ts[j].held == Some(held)
  {
    if i < j {
      HeadKeepsItsRoom(env, ts, queue, i, j - 1, held);
      TurnOfTick(env, ts, queue, j - 1, held);
      KeptTwice(env, ts[i], ts[j - 1], ts[j], held);
    }
  }

  lemma {:induction false} TurnOfTick(env: TickEnv, ts: seq<State>, queue: seq<Row>, k: nat, held: Row)
    requires Turns(env, ts, queue) && k < |queue| && ts[k].held == Some(held)
    ensures Kept(env, ts[k], ts[k + 1], held) && ts[k + 1].held == Some(held)
  {
    assert TurnAt(env, ts, queue, k);
    TurnKeeps(env, ts[k], ts[k + 1], queue[k], held);
  }
}
