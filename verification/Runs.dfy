/** Whole runs of the dispatcher: any interleaving of ticks, exits, restarts and what other processes
    do to the queue table. */
module Runs {
  import opened Wrappers
  import opened Resources
  import opened QueueRows
  import opened Devices
  import opened World
  import opened HoldClock
  import opened Placement
  import opened Scan
  import opened StepEffects
  import opened TickTheorems
  import opened Upkeep
  import opened Recovery
  import opened Pressure
  import Preemption

  datatype Machine = Machine(
    w: World, clock: Clock, blocked: map<JobId, real>, away: Elsewhere, strikes: nat)

  datatype Event =
    | Tick(env: TickEnv, fates: seq<Fate>)
    | Reap(exits: map<JobId, int>)                  // processes launched here that have ended
    | ReapAdopted(procs: map<int, int>)             // live processes, by id and creation time
    | KillAdopted(id: JobId)                        // a cancelled job nobody here launched is killed
    | Restart(procs: map<int, int>)                 // between ticks
    | Crash(env: TickEnv, fates: seq<Fate>, turns: nat, claiming: bool, procs: map<int, int>)
        // the dispatcher dies after some turns of a tick, perhaps with the next job claimed and its
        // process not recorded, and another takes over
    | Enqueue(row: Row)
    | Amend(row: Row)                               // re-rank, promote or correct a waiting row
    | Withdraw(id: JobId)                           // remove a waiting row
    | AskStop(id: JobId, cancel: bool, waiter: Option<JobId>)   // set a cancellation or preemption flag
    | RemoteDone(id: JobId, exit: Option<int>)      // a row running elsewhere ends with this code
    | Trim(id: JobId)                               // an ended job's row is deleted
    | Poll(node: NodeName, report: Report)          // a machine reports between ticks
    | Sample(policy: PressurePolicy, free: Option<real>, now: real)   // the pressure guard takes a reading

  /** Another dispatcher takes over. */
  predicate Replaces(ev: Event) {
    ev.Restart? || ev.Crash?
  }

  /** Bounds on the runs considered. Readings, reserve and slots may change from tick to tick: the
      reserve never falls below `reserveVram`, the rest never rises above what is given here. */
  datatype Fixture = Fixture(
    cfg: Limits, totals: map<int, Mib>, reserveVram: real,
    usableRam: Mib, usableVram: Mib, usableCpus: int, slots: nat)

  ghost predicate TickPossible(m: Machine, env: TickEnv, fates: seq<Fate>, fix: Fixture) {
    && env.cfg == fix.cfg && env.slots <= fix.slots && fix.reserveVram <= env.node.reserve.vram
    && Inventory(env, fix.totals) && |fates| == |Dispatchable(m.w.rows)|
    && WithinBounds(env.node, fix)
  }

  /** What this machine has less its reserve stays within the bounds of the run. */
  predicate WithinBounds(node: NodeSnapshot, fix: Fixture) {
    var vram := if node.gpu.Some? && node.gpu.value.available then DeviceTotals(node.gpu.value.devices) else 0.0;
    && node.mem.total.GetOr<Mib>(0.0) - node.reserve.ram <= fix.usableRam
    && vram - node.reserve.vram <= fix.usableVram
    && node.cpus - node.reserve.cpus <= fix.usableCpus && 1 <= fix.usableCpus
  }

  ghost predicate Possible(m: Machine, ev: Event, fix: Fixture) {
    match ev
    case Tick(env, fates) => TickPossible(m, env, fates, fix)
    case Crash(env, fates, turns, claiming, _) =>
      && TickPossible(m, env, fates, fix) && turns <= |fates| && (claiming ==> turns < |fates|)
    case KillAdopted(id) => id !in JobIds(m.w.running) && RunsIn(m.w.rows, id)
    case Enqueue(row) =>
      row.state == Queued && row.node.None? && row.pid.None?
      && row.id !in Ids(m.w.rows) && row.id !in m.w.Active()
    case Amend(row) =>
      row.state == Queued && row.node.None? && row.pid.None?
      && Find(m.w.rows, row.id).Some? && Find(m.w.rows, row.id).value.state == Queued
    case AskStop(id, _, _) =>
      Find(m.w.rows, id).Some? && Find(m.w.rows, id).value.state in {Queued, Running}
    case RemoteDone(id, _) =>
      Find(m.w.rows, id).Some? && Find(m.w.rows, id).value.state == Running && Find(m.w.rows, id).value.node.Some?
    case Trim(id) =>
      Find(m.w.rows, id).Some? && Find(m.w.rows, id).value.state in {BackendState.Finished, Removed}
    case _ => true
  }

  function Flagged(row: Row, cancel: bool, waiter: Option<JobId>): Row {
    if cancel then row.(cancelRequested := true) else row.(preemptRequested := true, preemptBy := waiter)
  }

  function RemoveQueued(w: World, id: JobId): World {
    var row := Find(w.rows, id);
    if row.Some? && row.value.state == Queued then WithRow(w, row.value.(state := Removed)) else w
  }

  /** A tick as far as its first `turns` turns. */
  function Midway(m: Machine, env: TickEnv, fates: seq<Fate>, turns: nat): State
    requires |fates| == |Dispatchable(m.w.rows)| && turns <= |fates|
  {
    Walk(env, Begin(m.w, m.clock, m.blocked, m.away), Dispatchable(m.w.rows), fates, turns)
  }

  function AfterTick(m: Machine, env: TickEnv, fates: seq<Fate>): Machine
    requires |fates| == |Dispatchable(m.w.rows)|
  {
    var end := Midway(m, env, fates, |fates|);
    Machine(end.w, end.clock, end.blocked, end.away, m.strikes)
  }

  /** The pressure guard counts its reading, and asks one job to stop when it was one too many. */
  function Sampled(m: Machine, policy: PressurePolicy, free: Option<real>, now: real): Machine {
    var victim := if Acts(policy, m.strikes, free) then PressureVictim(m.w.rows, m.w.Active(), now) else None;
    var rows := if victim.None? then m.w.rows else Preemption.Marked(m.w.rows, {victim.value.id}, None);
    m.(w := m.w.(rows := rows), strikes := StrikesNext(policy, m.strikes, free))
  }

  /** A new dispatcher knows nothing but the table. */
  function Restarted(rows: seq<Row>, procs: map<int, int>): Machine {
    Machine(Recovered(rows, procs), Clock(map[], map[]), map[], NothingElsewhere(), 0)
  }

  function LeftByCrash(m: Machine, env: TickEnv, fates: seq<Fate>, turns: nat, claiming: bool): seq<Row>
    requires |fates| == |Dispatchable(m.w.rows)| && turns <= |fates| && (claiming ==> turns < |fates|)
  {
    var rows := Midway(m, env, fates, turns).w.rows;
    if claiming then ClaimedOnly(rows, Dispatchable(m.w.rows)[turns].id, env.now) else rows
  }

  ghost function After(m: Machine, ev: Event, fix: Fixture): Machine
    requires Possible(m, ev, fix)
  {
    match ev
    case Tick(env, fates) => AfterTick(m, env, fates)
    case Reap(exits) => m.(w := ReapedTo(m.w, m.w.running, exits, |m.w.running|))
    case ReapAdopted(procs) => m.(w := ReapedAdoptedTo(m.w, m.w.adopted, procs, |m.w.adopted|))
    case KillAdopted(id) => m.(w := FinishIn(m.w, id, Some(-1)))
    case Restart(procs) => Restarted(m.w.rows, procs)
    case Crash(env, fates, turns, claiming, procs) =>
      Restarted(LeftByCrash(m, env, fates, turns, claiming), procs)
    case Enqueue(row) => m.(w := WithRow(m.w, row))
    case Amend(row) => m.(w := WithRow(m.w, row))
    case Withdraw(id) => m.(w := RemoveQueued(m.w, id))
    case AskStop(id, cancel, waiter) => m.(w := WithRow(m.w, Flagged(Find(m.w.rows, id).value, cancel, waiter)))
    case RemoteDone(id, exit) => m.(w := FinishIn(m.w, id, exit))
    case Trim(id) => m.(w := m.w.(rows := Without(m.w.rows, id)))
    case Poll(node, report) => m.(away := m.away.(reports := m.away.reports[node := report]))
    case Sample(policy, free, now) => Sampled(m, policy, free, now)
  }

  // ---- the invariant -----------------------------------------------------

  /** The books agree, every device is safely occupied, and neither ledger nor slots are overdrawn. */
  ghost predicate SafeWorld(w: World, fix: Fixture) {
    && fix.cfg.enforce
    && Consistent(w)
    && DevicesSafe(w, fix.totals, fix.reserveVram)
    && Ledger(fix.cfg, w).ram <= fix.usableRam
    && Ledger(fix.cfg, w).vram <= fix.usableVram
    && Ledger(fix.cfg, w).cpus <= fix.usableCpus
    && w.InFlight() <= fix.slots
  }

  ghost predicate Safe(m: Machine, fix: Fixture) {
    SafeWorld(m.w, fix)
  }

  /** Nothing was taken: the ledger and the jobs in flight are no larger and the devices no fuller. */
  ghost predicate Eased(cfg: Limits, w: World, w': World) {
    && Consistent(w')
    && Within(Ledger(cfg, w'), Ledger(cfg, w))
    && w'.InFlight() <= w.InFlight()
    && forall d :: Relaxed(w, w', d)
  }

  ghost predicate Relaxed(w: World, w': World, d: int) {
    NoFreer(OccupancyOf(w'.rows, w'.running, d), OccupancyOf(w.rows, w.running, d))
  }

  lemma {:induction false} EasedTwice(cfg: Limits, w: World, w1: World, w2: World)
    requires Eased(cfg, w, w1) && Eased(cfg, w1, w2)
    ensures Eased(cfg, w, w2)
  {
    forall d ensures Relaxed(w, w2, d) {
      assert Relaxed(w, w1, d) && Relaxed(w1, w2, d);
    }
  }

  lemma {:induction false} EasedStaysSafe(w: World, w': World, fix: Fixture)
    requires SafeWorld(w, fix) && Eased(fix.cfg, w, w')
    ensures SafeWorld(w', fix)
  {
    forall d ensures DeviceSafe(OccupancyOf(w'.rows, w'.running, d), Budget(fix.totals, fix.reserveVram, d)) {
      assert Relaxed(w, w', d);
      assert DeviceSafe(OccupancyOf(w.rows, w.running, d), Budget(fix.totals, fix.reserveVram, d));
    }
  }

  lemma {:induction false} QuietIsEased(cfg: Limits, w: World, w': World)
    requires Consistent(w') && Quiet(cfg, w, w')
    ensures Eased(cfg, w, w')
  {
    forall d ensures Relaxed(w, w', d) {
      SameTermsSameOccupancy(w, w', w.running, d);
    }
  }

  lemma {:induction false} DroppingRelaxes(w: World, w': World, jobs: seq<RunningJob>, gone: set<JobId>, d: int)
    requires forall id :: id in JobIds(jobs) - gone ==> SameTerms(w, w', id)
    ensures NoFreer(OccupancyOf(w'.rows, DropRunning(jobs, gone), d), OccupancyOf(w.rows, jobs, d))
  {
    if jobs != [] {
      var n := |jobs| - 1;
      var kept := DropRunning(jobs[..n], gone);
      JobIdsAppend(jobs[..n], jobs[n]);
      assert jobs == jobs[..n] + [jobs[n]];
      DroppingRelaxes(w, w', jobs[..n], gone, d);
      if jobs[n].id in gone {
        assert DropRunning(jobs, gone) == kept;
      } else {
        assert jobs[n].id in JobIds(jobs) - gone && SameTerms(w, w', jobs[n].id);
        assert DropRunning(jobs, gone) == kept + [jobs[n]];
        assert DropRunning(jobs, gone)[..|kept|] == kept;
      }
    }
  }

  lemma {:induction false} LeavingIsEased(cfg: Limits, w: World, w': World, id: JobId)
    requires Left(w, w', id) && Within(Ledger(cfg, w'), Ledger(cfg, w))
    ensures Eased(cfg, w, w')
  {
    forall other | other in JobIds(w.running) - {id} ensures SameTerms(w, w', other) {
      assert Kept(w, w', other);
      KeptMeansSameTerms(w, w', other);
    }
    forall d ensures Relaxed(w, w', d) {
      DroppingRelaxes(w, w', w.running, {id}, d);
    }
  }

  // ---- each event --------------------------------------------------------

  lemma {:induction false} StillFollowed(w: World, w': World, id: JobId, other: JobId)
    requires Left(w, w', id) && other != id
    ensures other in JobIds(w.running) ==> other in JobIds(w'.running)
    ensures Consistent(w) && other in AdoptedIds(w.adopted) ==> other in AdoptedIds(w'.adopted)
  {
    DropRunningIds(w.running, {id});
    assert other in w.Active() ==> other in w'.Active();
  }

  lemma {:induction false} ReapEases(cfg: Limits, w: World, exits: map<JobId, int>, k: nat)
    requires Consistent(w) && k <= |w.running|
    ensures var w' := ReapedTo(w, w.running, exits, k);
      Eased(cfg, w, w') && forall j :: k <= j < |w.running| ==> w.running[j].id in JobIds(w'.running)
  {
    if k == 0 {
      QuietIsEased(cfg, w, w);
      forall j | 0 <= j < |w.running| ensures w.running[j].id in JobIds(w.running) {
        JobIsListed(w.running, j);
      }
    } else {
      ReapEases(cfg, w, exits, k - 1);
      var before := ReapedTo(w, w.running, exits, k - 1);
      var id := w.running[k - 1].id;
      if id in exits {
        ReapOneLeaves(cfg, before, id, exits[id]);
        LeavingIsEased(cfg, before, ReapOne(before, id, exits[id]), id);
        EasedTwice(cfg, w, before, ReapOne(before, id, exits[id]));
        forall j | k <= j < |w.running| ensures w.running[j].id in JobIds(ReapOne(before, id, exits[id]).running) {
          StillFollowed(before, ReapOne(before, id, exits[id]), id, w.running[j].id);
        }
      }
    }
  }

  lemma {:induction false} ReapAdoptedEases(cfg: Limits, w: World, procs: map<int, int>, k: nat)
    requires Consistent(w) && k <= |w.adopted|
    ensures var w' := ReapedAdoptedTo(w, w.adopted, procs, k);
      Eased(cfg, w, w') && forall j :: k <= j < |w.adopted| ==> w.adopted[j].id in AdoptedIds(w'.adopted)
  {
    if k == 0 {
      QuietIsEased(cfg, w, w);
      forall j | 0 <= j < |w.adopted| ensures w.adopted[j].id in AdoptedIds(w.adopted) {
        AdoptedIsListed(w.adopted, j);
      }
    } else {
      ReapAdoptedEases(cfg, w, procs, k - 1);
      var before := ReapedAdoptedTo(w, w.adopted, procs, k - 1);
      var id := w.adopted[k - 1].id;
      if !StillThere(w.adopted[k - 1], procs) {
        ReapAdoptedLeaves(cfg, before, id);
        LeavingIsEased(cfg, before, ReapAdoptedOne(before, id), id);
        EasedTwice(cfg, w, before, ReapAdoptedOne(before, id));
        forall j | k <= j < |w.adopted| ensures w.adopted[j].id in AdoptedIds(ReapAdoptedOne(before, id).adopted) {
          StillFollowed(before, ReapAdoptedOne(before, id), id, w.adopted[j].id);
        }
      }
    }
  }

  /** Finishing the row of an adopted job leaves it followed until its process is seen to be gone. */
  lemma {:induction false} KillEases(cfg: Limits, w: World, id: JobId, exit: Option<int>)
    requires Consistent(w) && id !in JobIds(w.running) && RunsIn(w.rows, id)
    ensures Eased(cfg, w, FinishIn(w, id, exit))
  {
    var row := FinishedRow(Find(w.rows, id).value, exit);
    var w' := FinishIn(w, id, exit);
    FindMeansListed(w.rows, id);
    PutFacts(w.rows, row, id);
    PutKeepsOthers(w, row, w.running);
    LeavingGivesBack(cfg, w, row, w');
    forall other ensures Agrees(w', other) && (other != id ==> SameTerms(w, w', other)) {
      assert Agrees(w, other);
      if other != id {
        assert Kept(w, w', other);
        KeptMeansSameTerms(w, w', other);
      }
    }
    forall d ensures Relaxed(w, w', d) {
      SameTermsSameOccupancy(w, w', w.running, d);
    }
  }

  lemma {:induction false} RestartEases(cfg: Limits, w: World, rows: seq<Row>, procs: map<int, int>)
    requires LeftBehind(cfg, w, rows, procs)
    ensures Eased(cfg, w, Recovered(rows, procs))
  {
    RestartNeverAdds(cfg, w, rows, procs);
    RestartFollowsExactlyTheLiving(rows, procs);
    RestartOutcome(rows, procs, 0);
    forall d ensures Relaxed(w, Recovered(rows, procs), d) {
      assert OccupancyOf(Recovered(rows, procs).rows, [], d) == Vacant();
    }
  }

  lemma {:induction false} EnqueueEases(cfg: Limits, w: World, row: Row)
    requires Consistent(w) && row.state == Queued && row.node.None? && row.pid.None?
    requires row.id !in Ids(w.rows) && row.id !in w.Active()
    ensures Eased(cfg, w, WithRow(w, row))
  {
    var w' := WithRow(w, row);
    FindMeansListed(w.rows, row.id);
    WithoutAbsent(w.rows, row.id);
    ReservedInsert(cfg, w.rows, w.Active(), row);
    PlusLaws(Ledger(cfg, w), Nothing(), Nothing());
    PutFacts(w.rows, row, row.id);
    PutKeepsOthers(w, row, w.running);
    forall id ensures Agrees(w', id) && (id in JobIds(w.running) ==> SameTerms(w, w', id)) {
      assert Agrees(w, id);
      if id != row.id {
        assert Kept(w, w', id);
        KeptMeansSameTerms(w, w', id);
      }
    }
    QuietIsEased(cfg, w, w');
  }

  /** Setting a flag on a row changes nothing the books or the devices depend on. */
  lemma {:induction false} FlaggingEases(cfg: Limits, w: World, id: JobId, cancel: bool, waiter: Option<JobId>)
    requires Consistent(w) && Find(w.rows, id).Some?
    ensures Eased(cfg, w, WithRow(w, Flagged(Find(w.rows, id).value, cancel, waiter)))
  {
    var was := Find(w.rows, id).value;
    var row := Flagged(was, cancel, waiter);
    var w' := WithRow(w, row);
    FindMeansListed(w.rows, id);
    PutFacts(w.rows, row, id);
    PutKeepsOthers(w, row, w.running);
    LedgerMovesByOneRow(cfg, w.rows, was, row, w.Active(), w.Active());
    forall other ensures Agrees(w', other) && SameTerms(w, w', other) {
      assert Agrees(w, other);
      if other != id {
        assert Kept(w, w', other);
        KeptMeansSameTerms(w, w', other);
      }
    }
    QuietIsEased(cfg, w, w');
  }

  lemma {:induction false} SampleEases(cfg: Limits, m: Machine, policy: PressurePolicy, free: Option<real>, now: real)
    requires Consistent(m.w)
    ensures Eased(cfg, m.w, Sampled(m, policy, free, now).w)
  {
    var w' := Sampled(m, policy, free, now).w;
    if w'.rows == m.w.rows {
      QuietIsEased(cfg, m.w, m.w);
    } else {
      MarkingIsQuiet(cfg, m.w, {PressureVictim(m.w.rows, m.w.Active(), now).value.id}, None, 0);
      QuietIsEased(cfg, m.w, w');
    }
  }

  lemma {:induction false} RewriteEases(cfg: Limits, w: World, was: Row, row: Row)
    requires Consistent(w) && Find(w.rows, row.id) == Some(was)
    requires was.state != BackendState.Finished && !RunsHere(was)
    requires !RunsHere(row) && (row.state == Queued ==> row.node.None? && row.pid.None?)
    ensures Eased(cfg, w, WithRow(w, row))
  {
    RewriteIsQuiet(cfg, w, was, row);
    QuietIsEased(cfg, w, WithRow(w, row));
  }

  lemma {:induction false} TrimEases(cfg: Limits, w: World, id: JobId)
    requires Consistent(w) && Find(w.rows, id).Some?
    requires Find(w.rows, id).value.state in {BackendState.Finished, Removed}
    ensures Eased(cfg, w, w.(rows := Without(w.rows, id)))
  {
    var w' := w.(rows := Without(w.rows, id));
    FindMeansListed(w.rows, id);
    ReservedWithout(cfg, w.rows, w.Active(), Find(w.rows, id).value);
    PlusLaws(Ledger(cfg, w'), Nothing(), Nothing());
    WithoutFacts(w.rows, id, id);
    forall other ensures Agrees(w', other) && (other in JobIds(w.running) ==> SameTerms(w, w', other)) {
      assert Agrees(w, other);
      WithoutFacts(w.rows, id, other);
    }
    QuietIsEased(cfg, w, w');
  }

  // ---- a tick ------------------------------------------------------------

  lemma {:induction false} DispatchableMembers(rows: seq<Row>, row: Row)
    ensures row in Dispatchable(rows) <==> row in rows && row.state == Queued && !row.cancelRequested
  {
    if rows != [] {
      DispatchableMembers(rows[1..], row);
      assert rows == [rows[0]] + rows[1..];
    }
  }

  lemma {:induction false} DispatchableDiffer(rows: seq<Row>)
    requires Distinct(rows)
    ensures forall i, j :: 0 <= i < j < |Dispatchable(rows)| ==> Dispatchable(rows)[i].id != Dispatchable(rows)[j].id
  {
    if rows != [] {
      DispatchableDiffer(rows[1..]);
      var rest := Dispatchable(rows[1..]);
      forall k | 0 <= k < |rest| ensures rest[k].id != rows[0].id {
        DispatchableMembers(rows[1..], rest[k]);
        ListedMeansFound(rows[1..], rest[k]);
      }
    }
  }

  lemma {:induction false} QueueIsListed(w: World)
    requires Distinct(w.rows)
    ensures Listing(w, Dispatchable(w.rows))
  {
    var queue := Dispatchable(w.rows);
    DispatchableDiffer(w.rows);
    forall i | 0 <= i < |queue| ensures queue[i].state == Queued && Find(w.rows, queue[i].id) == Some(queue[i]) {
      DispatchableMembers(w.rows, queue[i]);
      ListedMeansFound(w.rows, queue[i]);
    }
  }

  lemma {:induction false} JobsAreCounted(env: TickEnv, ts: seq<State>, queue: seq<Row>, k: nat)
    requires Turns(env, ts, queue) && k <= |queue|
    requires ts[0].inFlight == ts[0].w.InFlight() && Consistent(ts[0].w)
    ensures ts[k].inFlight == ts[k].w.InFlight() && Consistent(ts[k].w)
  {
    if k > 0 {
      JobsAreCounted(env, ts, queue, k - 1);
      assert TurnAt(env, ts, queue, k - 1);
    }
  }

  /** The books agree from a tick's first turn to its last. */
  lemma {:induction false} TickStaysConsistent(m: Machine, env: TickEnv, fates: seq<Fate>, turns: nat)
    requires Consistent(m.w) && |fates| == |Dispatchable(m.w.rows)| && turns <= |fates|
    ensures Consistent(Midway(m, env, fates, turns).w)
  {
    var queue := Dispatchable(m.w.rows);
    var s := Begin(m.w, m.clock, m.blocked, m.away);
    QueueIsListed(m.w);
    WalkIsARunOfTurns(env, s, queue, fates);
    JobsAreCounted(env, States(env, s, queue, fates), queue, turns);
  }

  /** A tick is safe from its first turn to its last. */
  lemma {:induction false} TickStaysSafe(m: Machine, env: TickEnv, fates: seq<Fate>, turns: nat, fix: Fixture)
    requires Safe(m, fix) && TickPossible(m, env, fates, fix) && turns <= |fates|
    ensures SafeWorld(Midway(m, env, fates, turns).w, fix)
  {
    var queue := Dispatchable(m.w.rows);
    var s := Begin(m.w, m.clock, m.blocked, m.away);
    QueueIsListed(m.w);
    WalkIsARunOfTurns(env, s, queue, fates);
    var ts := States(env, s, queue, fates);
    assert ts[0].w == m.w && ts[0].inFlight == m.w.InFlight();
    JobsAreCounted(env, ts, queue, turns);
    TickStaysInLedger(env, ts, queue, turns);
    TickKeepsDevicesSafe(env, ts, queue, turns, fix.totals, fix.reserveVram);
  }

  /** Wherever in a tick the dispatcher dies, the table it leaves is one a successor can start from. */
  lemma {:induction false} CrashLeavesATable(
      cfg: Limits, m: Machine, env: TickEnv, fates: seq<Fate>, turns: nat, claiming: bool, procs: map<int, int>)
    requires Consistent(m.w) && |fates| == |Dispatchable(m.w.rows)| && turns <= |fates|
    requires claiming ==> turns < |fates|
    ensures LeftBehind(cfg, Midway(m, env, fates, turns).w, LeftByCrash(m, env, fates, turns, claiming), procs)
  {
    var w := Midway(m, env, fates, turns).w;
    TickStaysConsistent(m, env, fates, turns);
    if claiming {
      HalfClaimIsLeftBehind(cfg, w, Dispatchable(m.w.rows)[turns].id, env.now, procs);
    } else {
      TableIsLeftBehind(cfg, w, procs);
    }
  }

  /** Wherever in a tick the dispatcher dies, its successor starts safe. */
  lemma {:induction false} CrashStaysSafe(
      m: Machine, env: TickEnv, fates: seq<Fate>, turns: nat, claiming: bool, procs: map<int, int>, fix: Fixture)
    requires Safe(m, fix) && Possible(m, Crash(env, fates, turns, claiming, procs), fix)
    ensures SafeWorld(Recovered(LeftByCrash(m, env, fates, turns, claiming), procs), fix)
  {
    var w := Midway(m, env, fates, turns).w;
    TickStaysSafe(m, env, fates, turns, fix);
    CrashLeavesATable(fix.cfg, m, env, fates, turns, claiming, procs);
    RestartEases(fix.cfg, w, LeftByCrash(m, env, fates, turns, claiming), procs);
    EasedStaysSafe(w, Recovered(LeftByCrash(m, env, fates, turns, claiming), procs), fix);
  }

  // ---- runs --------------------------------------------------------------

  lemma {:induction false} EventStaysSafe(m: Machine, ev: Event, fix: Fixture)
    requires Safe(m, fix) && Possible(m, ev, fix)
    ensures Safe(After(m, ev, fix), fix)
  {
    match ev
    case Tick(env, fates) => TickStaysSafe(m, env, fates, |fates|, fix);
    case Crash(env, fates, turns, claiming, procs) => CrashStaysSafe(m, env, fates, turns, claiming, procs, fix);
    case _ =>
      OtherEventEases(m, ev, fix);
      EasedStaysSafe(m.w, After(m, ev, fix).w, fix);
  }

  /** Only a tick takes anything: every event outside one leaves the machine no fuller than it was. */
  lemma {:induction false} OtherEventEases(m: Machine, ev: Event, fix: Fixture)
    requires Consistent(m.w) && Possible(m, ev, fix) && !ev.Tick? && !ev.Crash?
    ensures Eased(fix.cfg, m.w, After(m, ev, fix).w)
  {
    var w := m.w;
    match ev
    case Reap(exits) => ReapEases(fix.cfg, w, exits, |w.running|);
    case ReapAdopted(procs) => ReapAdoptedEases(fix.cfg, w, procs, |w.adopted|);
    case KillAdopted(id) => KillEases(fix.cfg, w, id, Some(-1));
    case Restart(procs) =>
      TableIsLeftBehind(fix.cfg, w, procs);
      RestartEases(fix.cfg, w, w.rows, procs);
    case Enqueue(row) => EnqueueEases(fix.cfg, w, row);
    case Amend(row) => RewriteEases(fix.cfg, w, Find(w.rows, row.id).value, row);
    case Withdraw(id) =>
      FindMeansListed(w.rows, id);
      if Find(w.rows, id).Some? && Find(w.rows, id).value.state == Queued {
        RewriteEases(fix.cfg, w, Find(w.rows, id).value, Find(w.rows, id).value.(state := Removed));
      } else {
        QuietIsEased(fix.cfg, w, w);
      }
    case AskStop(id, cancel, waiter) => FlaggingEases(fix.cfg, w, id, cancel, waiter);
    case RemoteDone(id, exit) =>
      FindMeansListed(w.rows, id);
      RewriteEases(fix.cfg, w, Find(w.rows, id).value, FinishedRow(Find(w.rows, id).value, exit));
    case Trim(id) => TrimEases(fix.cfg, w, id);
    case Poll(_, _) => QuietIsEased(fix.cfg, w, w);
    case Sample(policy, free, now) => SampleEases(fix.cfg, m, policy, free, now);
  }

  /** A run: each event is possible where it happens and leads to the next machine. */
  ghost predicate Run(ms: seq<Machine>, evs: seq<Event>, fix: Fixture) {
    && |ms| == |evs| + 1
    && forall k :: 0 <= k < |evs| ==> Happens(ms, evs, fix, k)
  }

  /** Event `k` leads from machine `k` to the next. */
  ghost predicate Happens(ms: seq<Machine>, evs: seq<Event>, fix: Fixture, k: nat)
    requires k < |evs| && |ms| == |evs| + 1
  {
    Follows(ms[k], evs[k], ms[k + 1], fix)
  }

  ghost predicate Follows(m: Machine, ev: Event, m': Machine, fix: Fixture) {
    Possible(m, ev, fix) && m' == After(m, ev, fix)
  }

  /** Safety over whole runs. However ticks, exits, crashes and restarts, displacements and other
      processes' edits interleave, the books agree with the queue table, no device is overcommitted,
      the ledger stays within what is usable and jobs in flight within the slots. */
  lemma {:induction false} EveryRunIsSafe(ms: seq<Machine>, evs: seq<Event>, fix: Fixture, k: nat)
    requires Run(ms, evs, fix) && Safe(ms[0], fix) && k <= |evs|
    ensures Safe(ms[k], fix)
  {
    if k > 0 {
      EveryRunIsSafe(ms, evs, fix, k - 1);
      assert Happens(ms, evs, fix, k - 1);
      EventStaysSafe(ms[k - 1], evs[k - 1], fix);
    }
  }

  /** The books agree throughout every run, whatever limits are enforced or not. */
  lemma {:induction false} EveryRunIsConsistent(ms: seq<Machine>, evs: seq<Event>, fix: Fixture, k: nat)
    requires Run(ms, evs, fix) && Consistent(ms[0].w) && k <= |evs|
    ensures Consistent(ms[k].w)
  {
    if k > 0 {
      EveryRunIsConsistent(ms, evs, fix, k - 1);
      assert Happens(ms, evs, fix, k - 1);
      EventStaysConsistent(ms[k - 1], evs[k - 1], fix);
    }
  }

  lemma {:induction false} EventStaysConsistent(m: Machine, ev: Event, fix: Fixture)
    requires Consistent(m.w) && Possible(m, ev, fix)
    ensures Consistent(After(m, ev, fix).w)
  {
    match ev
    case Tick(env, fates) => TickStaysConsistent(m, env, fates, |fates|);
    case Crash(env, fates, turns, claiming, procs) =>
      CrashLeavesATable(fix.cfg, m, env, fates, turns, claiming, procs);
      RestartFollowsExactlyTheLiving(LeftByCrash(m, env, fates, turns, claiming), procs);
    case _ => OtherEventEases(m, ev, fix);
  }

  /** Runs begin safe: an empty machine is. */
  lemma {:induction false} EmptyIsSafe(fix: Fixture)
    requires fix.cfg.enforce && fix.usableCpus >= 0
    ensures Safe(Machine(World([], [], []), Clock(map[], map[]), map[], NothingElsewhere(), 0), fix)
  {
    var w := World([], [], []);
    forall id ensures Agrees(w, id) {
    }
  }
}
