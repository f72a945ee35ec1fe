/** The state a tick works on, and the frozen readings it judges that state against. */
module World {
  import opened Wrappers
  import opened Resources
  import opened QueueRows
  import opened Devices

  /** A job inherited from an earlier dispatcher, followed by process identity alone. */
  datatype AdoptedJob = AdoptedJob(id: JobId, pid: int, creation: int)

  datatype World = World(rows: seq<Row>, running: seq<RunningJob>, adopted: seq<AdoptedJob>) {
    /** How many slots are taken: launching a job and adopting one count alike. */
    function InFlight(): nat {
      |running| + |adopted|
    }

    function Active(): set<JobId> {
      JobIds(running) + AdoptedIds(adopted)
    }
  }

  function AdoptedIds(jobs: seq<AdoptedJob>): set<JobId> {
    if jobs == [] then {} else {jobs[0].id} + AdoptedIds(jobs[1..])
  }

  function DropAdopted(jobs: seq<AdoptedJob>, gone: set<JobId>): seq<AdoptedJob> {
    if jobs == [] then []
    else (if jobs[0].id in gone then [] else [jobs[0]]) + DropAdopted(jobs[1..], gone)
  }

  datatype Scheduling = Scheduling(
    backfill: bool, maxSkip: nat, headWait: real, maxHold: real, autoPlacement: bool)

  datatype PreemptionPolicy = PreemptionPolicy(enabled: bool, requireOptIn: bool, minRuntime: real)

  /** Everything a tick reads once: configuration, one snapshot of the machine, slots, the clock.
      `standing` is the configured reserve, which one placement question uses instead of the live one;
      `nodes` are the other machines registered and enabled, in order. */
  datatype TickEnv = TickEnv(
    cfg: Limits, sched: Scheduling, preemption: PreemptionPolicy,
    node: NodeSnapshot, standing: Reserve, threshold: real, slots: nat, now: real,
    nodes: seq<NodeName>)
  {
    function Policy(): GpuPolicy {
      GpuPolicy(threshold, node.reserve.vram)
    }
  }

  function Ledger(cfg: Limits, w: World): ResourceRequest {
    Reserved(cfg, w.rows, w.Active())
  }

  function RunningRequests(cfg: Limits, w: World): seq<ResourceRequest> {
    ActiveRequests(cfg, w.rows, w.Active())
  }

  function AllocateFor(env: TickEnv, w: World, row: Row): Option<seq<int>> {
    Allocate(w.rows, w.running, env.node.gpu, row.gpus, row.mode, DeclaredVram(row), env.Policy())
  }

  lemma {:induction false} JobIdsAppend(jobs: seq<RunningJob>, job: RunningJob)
    ensures JobIds(jobs + [job]) == JobIds(jobs) + {job.id}
  {
    if jobs == [] {
      assert jobs + [job] == [job];
    } else {
      assert (jobs + [job])[1..] == jobs[1..] + [job];
      JobIdsAppend(jobs[1..], job);
    }
  }
}
