/** Exactly when one refusal may speak for another: the dominance shortcut, both ways. */
module Dominance {
  import opened Wrappers
  import opened Resources
  import opened QueueRows
  import opened Devices
  import opened World
  import opened HoldClock
  import opened Placement
  import opened Scan
  import opened StepEffects
  import opened TickTheorems
  import opened SmallTables

  predicate SameDefaults(a: Limits, b: Limits) {
    a.defaultRam == b.defaultRam && a.defaultVram == b.defaultVram && a.defaultCpus == b.defaultCpus
  }

  /** A moment of a tick at which this job waits: books that agree, its row in the queue. */
  ghost predicate Moment(s: State, row: Row) {
    Consistent(s.w) && s.inFlight == s.w.InFlight() && row.state == Queued && Find(s.w.rows, row.id) == Some(row)
  }

  /** The shortcut is right about a pair of waiting jobs: on every machine and at every moment, once the
      earlier is refused the later is refused from then on. */
  ghost predicate ShortcutRight(cfg: Limits, earlier: Row, later: Row) {
    forall env: TickEnv, s: State, t: State ::
      (SameDefaults(env.cfg, cfg) && Moment(s, earlier) && Moment(t, later) && Tighter(env, s, t)
       && Judge(env, s, earlier).NotHere?)
      ==> Judge(env, t, later).NotHere?
  }

  lemma {:induction false} UniformRates(
      rows: seq<Row>, jobs: seq<RunningJob>, devices: seq<GpuDevice>, mode: GpuMode, vram: Mib, policy: GpuPolicy,
      ok: bool)
    requires forall d :: d in devices ==> (Rate(d, OccupancyOf(rows, jobs, d.index), mode, vram, policy).Some? <==> ok)
    ensures |Candidates(rows, jobs, devices, mode, vram, policy)| == if ok then |devices| else 0
  {
    if devices != [] {
      UniformRates(rows, jobs, devices[..|devices| - 1], mode, vram, policy, ok);
    }
  }

  /** One sharing job on every device, declaring nothing itself. */
  function Sharers(n: nat, size: Mib): (ds: seq<GpuDevice>)
    ensures |ds| == n
    ensures forall d :: d in ds ==> d == GpuDevice(d.index, Some(size), None, None) && 0 <= d.index < n
  {
    seq(n, i => GpuDevice(i, Some(size), None, None))
  }

  /** Somebody else's job, running, sharing and declaring nothing. */
  function Host(earlier: Row, later: Row): Row {
    Row(MaxInt(earlier.id, later.id) + 1, 100, 0, None, None, None, later.gpus, Shared, Running, None, None, None, None,
        false, false, false, None, None, None, None, false, true)
  }

  /** A machine where that job is on every device, and the two others wait. */
  function HostedWorld(earlier: Row, later: Row): World {
    var host := Host(earlier, later);
    World([host, earlier, later], [RunningJob(host.id, seq(later.gpus, i => i))], [])
  }

  function HostedMachine(cfg: Limits, later: Row): TickEnv {
    var gpu := GpuInfo(true, Sharers(later.gpus, DeclaredVram(later)));
    var node := NodeSnapshot(HostMemory(None, None, None, None), Some(gpu), 1, None, Reserve(0.0, 0.0, 0));
    TickEnv(cfg.(enforce := false), Scheduling(true, 8, 900.0, 1800.0, true), PreemptionPolicy(false, true, 0.0),
            node, node.reserve, 0.0, 2, 0.0, [])
  }

  lemma {:induction false} HostedWorldIsConsistent(earlier: Row, later: Row)
    requires earlier.id != later.id && earlier.state == Queued && later.state == Queued
    requires earlier.node.None? && later.node.None? && earlier.pid.None? && later.pid.None?
    ensures Consistent(HostedWorld(earlier, later))
    ensures Find(HostedWorld(earlier, later).rows, earlier.id) == Some(earlier)
    ensures Find(HostedWorld(earlier, later).rows, later.id) == Some(later)
  {
    var w, host := HostedWorld(earlier, later), Host(earlier, later);
    OneJob(w.running[0]);
    forall id ensures Agrees(w, id) {
      ThreeRows(host, earlier, later, id);
    }
    ThreeRows(host, earlier, later, earlier.id);
    ThreeRows(host, earlier, later, later.id);
  }

  lemma {:induction false} HostIsEverywhere(earlier: Row, later: Row, device: int)
    requires 0 <= device < later.gpus
    ensures var w := HostedWorld(earlier, later); OccupancyOf(w.rows, w.running, device) == Occupancy(1, 0.0, false)
  {
    var w, host := HostedWorld(earlier, later), Host(earlier, later);
    OneJob(w.running[0]);
    ThreeRows(host, earlier, later, host.id);
    assert w.running[0].devices[device] == device;
    assert OccupancyOf(w.rows, w.running[..0], device) == Vacant();
  }

  /** For every pair in the gap there is a machine, with both waiting in its queue, where the earlier is
      refused and the later one fits. */
  lemma {:induction false} GapIsReal(cfg: Limits, earlier: Row, later: Row) returns (env: TickEnv, s: State)
    requires earlier.id != later.id && earlier.state == Queued && later.state == Queued
    requires earlier.node.None? && later.node.None? && earlier.pid.None? && later.pid.None?
    requires AsksAtLeast(Asked(RequestFor(cfg, later), later.mode), Asked(RequestFor(cfg, earlier), earlier.mode))
    requires SharesWhereEarlierCould(earlier, later)
    ensures SameDefaults(env.cfg, cfg) && Moment(s, earlier) && Moment(s, later) && Tighter(env, s, s)
    ensures Judge(env, s, earlier).NotHere? && Judge(env, s, later).Here?
  {
    env := HostedMachine(cfg, later);
    s := State(HostedWorld(earlier, later), 1, None, None, 0, [], false, Clock(map[], map[]), map[],
               NothingElsewhere());
    HostedWorldIsConsistent(earlier, later);
    var devices := env.node.gpu.value.devices;
    forall d | d in devices ensures OccupancyOf(s.w.rows, s.w.running, d.index) == Occupancy(1, 0.0, false) {
      HostIsEverywhere(earlier, later, d.index);
    }
    UniformRates(s.w.rows, s.w.running, devices, earlier.mode, DeclaredVram(earlier), env.Policy(), false);
    UniformRates(s.w.rows, s.w.running, devices, later.mode, DeclaredVram(later), env.Policy(), true);
    assert AllocateFor(env, s.w, earlier).None?;
    assert AllocateFor(env, s.w, later).Some?;
  }

  /** The shortcut is right about exactly the pairs outside the gap: it fails only when the earlier job
      shares with no VRAM declared and the later one shares with some. */
  lemma {:induction false} ShortcutRightExactlyOutsideTheGap(cfg: Limits, earlier: Row, later: Row)
    requires earlier.id != later.id && earlier.state == Queued && later.state == Queued
    requires earlier.node.None? && later.node.None? && earlier.pid.None? && later.pid.None?
    requires AsksAtLeast(Asked(RequestFor(cfg, later), later.mode), Asked(RequestFor(cfg, earlier), earlier.mode))
    ensures ShortcutRight(cfg, earlier, later) <==> !SharesWhereEarlierCould(earlier, later)
  {
    if SharesWhereEarlierCould(earlier, later) {
      var env, s := GapIsReal(cfg, earlier, later);
      assert Tighter(env, s, s);
    } else {
      forall env: TickEnv, s: State, t: State
        | SameDefaults(env.cfg, cfg) && Tighter(env, s, t) && Judge(env, s, earlier).NotHere?
        ensures Judge(env, t, later).NotHere?
      {
        RefusalCarries(env, s, t, earlier, later);
      }
    }
  }
}
