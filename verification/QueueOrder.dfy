/** The queue over whole runs: whatever happens, each tick meets every waiting job once, in the order of rank, then
    position, then id. */
module QueueOrder {
  import opened Wrappers
  import opened QueueRows
  import opened Devices
  import opened World
  import opened Scan
  import opened StepEffects
  import opened Upkeep
  import opened Pressure
  import opened Runs
  import opened QueueStore
  import Preemption

  lemma {:induction false} DisplacingKeepsOrder(env: TickEnv, w: World, waiter: Row)
    requires Ordered(w.rows)
    ensures Ordered(Preemption.Displaced(env, w, waiter).rows)
  {
    MarkingKeepsOrder(
      w.rows, Preemption.RowIds(Preemption.Victims(env, w, waiter)), Some(waiter.id));
  }

  // ---- one turn ----------------------------------------------------------

  lemma {:induction false} SettingKeepsOrder(s: State, row: Row)
    requires Ordered(s.w.rows)
    ensures Ordered(SetRow(s, row).w.rows)
  {
    PutKeepsOrder(s.w.rows, row);
  }

  lemma {:induction false} PlacingKeepsOrder(env: TickEnv, s: State, row: Row, node: NodeName, fate: Fate)
    requires Ordered(s.w.rows)
    ensures Ordered(RemoteAttempt(env, s, row, node, fate).0.w.rows)
  {
    if row.travels && fate.shipped.Some? && Claimable(s, row.id).Some? {
      SettingKeepsOrder(s, Claimable(s, row.id).value.(
        state := Running, startedAt := Some(env.now), node := Some(node), remoteId := Some(fate.shipped.value)));
    }
  }

  lemma {:induction false} StartingKeepsOrder(env: TickEnv, s: State, row: Row, devices: seq<int>, fate: Fate)
    requires Ordered(s.w.rows)
    ensures Ordered(LocalStart(env, s, row, devices, fate).w.rows)
  {
    var found := Find(s.w.rows, row.id);
    if found.Some? {
      var claimed := found.value.(state := Running, startedAt := Some(env.now));
      SettingKeepsOrder(s, FinishedRow(found.value, Some(127)));
      SettingKeepsOrder(s, FinishedRow(claimed, Some(127)));
      if fate.launch.Launches? {
        SettingKeepsOrder(s, claimed.(pid := Some(fate.launch.pid), creation := fate.launch.creation));
      }
    }
  }

  lemma {:induction false} RefusingKeepsOrder(env: TickEnv, s: State, row: Row)
    requires Ordered(s.w.rows)
    ensures Ordered(RefusedStep(env, s, row).w.rows)
  {
    RefusalMarks(env, s, row);
    DisplacingKeepsOrder(env, s.w, row);
  }

  lemma {:induction false} FreeTurnKeepsOrder(env: TickEnv, s: State, row: Row, later: seq<Row>, fate: Fate)
    requires Ordered(s.w.rows)
    ensures Ordered(FreeStep(env, s, row, later, fate).w.rows)
  {
    var verdict := Judge(env, s, row);
    var chosen := ChooseNode(env, s, row, later, verdict.Here?, fate);
    var s' := s;
    if chosen.Some? {
      PlacingKeepsOrder(env, s, row, chosen.value, fate);
      s' := RemoteAttempt(env, s, row, chosen.value, fate).0;
    }
    if verdict.Here? {
      StartingKeepsOrder(env, s', row, verdict.devices, fate);
    } else if chosen.None? {
      RefusingKeepsOrder(env, s, row);
    }
  }

  lemma {:induction false} ClosedTurnKeepsOrder(env: TickEnv, s: State, row: Row, later: seq<Row>, fate: Fate)
    requires Ordered(s.w.rows)
    ensures Ordered(ElsewhereStep(env, s, row, later, fate).w.rows)
  {
    var chosen := ChooseNode(env, s, row, later, false, fate);
    if chosen.Some? {
      PlacingKeepsOrder(env, s, row, chosen.value, fate);
    }
  }

  lemma {:induction false} TurnKeepsOrder(env: TickEnv, s: State, row: Row, later: seq<Row>, fate: Fate)
    requires Ordered(s.w.rows)
    ensures Ordered(Step(env, s, row, later, fate).w.rows)
  {
    var s1 := Meanwhile(s, row, fate);
    if fate.withdrawn && Find(s.w.rows, row.id).Some? {
      SettingKeepsOrder(s, Find(s.w.rows, row.id).value.(state := Removed));
    }
    if row.pinned.Some? {
      PlacingKeepsOrder(env, s1, row, row.pinned.value, fate);
    } else if s1.closed {
      ClosedTurnKeepsOrder(env, s1, row, later, fate);
    } else {
      FreeTurnKeepsOrder(env, s1, row, later, fate);
    }
  }

  lemma {:induction false} TickKeepsOrder(m: Machine, env: TickEnv, fates: seq<Fate>, turns: nat)
    requires Ordered(m.w.rows) && |fates| == |Dispatchable(m.w.rows)| && turns <= |fates|
    ensures Ordered(Midway(m, env, fates, turns).w.rows)
  {
    if turns > 0 {
      var queue := Dispatchable(m.w.rows);
      TickKeepsOrder(m, env, fates, turns - 1);
      TurnKeepsOrder(env, Midway(m, env, fates, turns - 1), queue[turns - 1], queue[turns..], fates[turns - 1]);
    }
  }

  // ---- other events ------------------------------------------------------

  lemma {:induction false} EndingKeepsOrder(w: World, id: JobId, exit: Option<int>)
    requires Ordered(w.rows)
    ensures Ordered(FinishIn(w, id, exit).rows)
  {
    if Find(w.rows, id).Some? {
      PutKeepsOrder(w.rows, FinishedRow(Find(w.rows, id).value, exit));
    }
  }

  lemma {:induction false} ReapingKeepsOrder(w: World, jobs: seq<RunningJob>, exits: map<JobId, int>, k: nat)
    requires Ordered(w.rows) && k <= |jobs|
    ensures Ordered(ReapedTo(w, jobs, exits, k).rows)
  {
    if k > 0 {
      ReapingKeepsOrder(w, jobs, exits, k - 1);
      var before, id := ReapedTo(w, jobs, exits, k - 1), jobs[k - 1].id;
      if id in exits {
        EndingKeepsOrder(before.(running := DropRunning(before.running, {id})), id, Some(exits[id]));
        if Find(before.rows, id).Some? {
          PutKeepsOrder(before.rows, RequeuedRow(before.rows, Find(before.rows, id).value));
        }
      }
    }
  }

  lemma {:induction false} ReapingAdoptedKeepsOrder(w: World, jobs: seq<AdoptedJob>, procs: map<int, int>, k: nat)
    requires Ordered(w.rows) && k <= |jobs|
    ensures Ordered(ReapedAdoptedTo(w, jobs, procs, k).rows)
  {
    if k > 0 {
      ReapingAdoptedKeepsOrder(w, jobs, procs, k - 1);
      var before, id := ReapedAdoptedTo(w, jobs, procs, k - 1), jobs[k - 1].id;
      EndingKeepsOrder(before.(adopted := DropAdopted(before.adopted, {id})), id, None);
    }
  }

  lemma {:induction false} RecoveringKeepsOrder(rows: seq<Row>, listed: seq<Row>, procs: map<int, int>, k: nat)
    requires Ordered(rows) && k <= |listed|
    ensures Ordered(RecoveredTo(rows, listed, procs, k).rows)
  {
    if k > 0 {
      RecoveringKeepsOrder(rows, listed, procs, k - 1);
      EndingKeepsOrder(RecoveredTo(rows, listed, procs, k - 1), listed[k - 1].id, None);
    }
  }

  lemma {:induction false} CrashKeepsOrder(
      m: Machine, env: TickEnv, fates: seq<Fate>, turns: nat, claiming: bool, procs: map<int, int>)
    requires Ordered(m.w.rows) && |fates| == |Dispatchable(m.w.rows)|
    requires turns <= |fates| && (claiming ==> turns < |fates|)
    ensures Ordered(Recovered(LeftByCrash(m, env, fates, turns, claiming), procs).rows)
  {
    var rows, left := Midway(m, env, fates, turns).w.rows, LeftByCrash(m, env, fates, turns, claiming);
    TickKeepsOrder(m, env, fates, turns);
    if claiming {
      var found := Find(rows, Dispatchable(m.w.rows)[turns].id);
      if found.Some? {
        PutKeepsOrder(rows, found.value.(state := Running, startedAt := Some(env.now)));
      }
    }
    RecoveringKeepsOrder(left, InState(left, Running), procs, |InState(left, Running)|);
  }

  lemma {:induction false} WithdrawingKeepsOrder(w: World, id: JobId)
    requires Ordered(w.rows)
    ensures Ordered(RemoveQueued(w, id).rows)
  {
    if Find(w.rows, id).Some? {
      PutKeepsOrder(w.rows, Find(w.rows, id).value.(state := Removed));
    }
  }

  lemma {:induction false} SamplingKeepsOrder(m: Machine, policy: PressurePolicy, free: Option<real>, now: real)
    requires Ordered(m.w.rows)
    ensures Ordered(Sampled(m, policy, free, now).w.rows)
  {
    var victim := PressureVictim(m.w.rows, m.w.Active(), now);
    if victim.Some? {
      MarkingKeepsOrder(m.w.rows, {victim.value.id}, None);
    }
  }

  lemma {:induction false} EditKeepsOrder(m: Machine, ev: Event, fix: Fixture)
    requires Ordered(m.w.rows) && Possible(m, ev, fix)
    requires ev.Enqueue? || ev.Amend? || ev.Withdraw? || ev.AskStop?
      || ev.RemoteDone? || ev.Trim? || ev.Poll? || ev.Sample?
    ensures Ordered(After(m, ev, fix).w.rows)
  {
    var w := m.w;
    match ev
    case Enqueue(row) => PutKeepsOrder(w.rows, row);
    case Amend(row) => PutKeepsOrder(w.rows, row);
    case Withdraw(id) => WithdrawingKeepsOrder(w, id);
    case AskStop(id, cancel, waiter) => PutKeepsOrder(w.rows, Flagged(Find(w.rows, id).value, cancel, waiter));
    case RemoteDone(id, exit) => EndingKeepsOrder(w, id, exit);
    case Trim(id) => WithoutIsSublist(w.rows, id);
    case Poll(_, _) =>
    case Sample(policy, free, now) => SamplingKeepsOrder(m, policy, free, now);
  }

  lemma {:induction false} EventKeepsOrder(m: Machine, ev: Event, fix: Fixture)
    requires Ordered(m.w.rows) && Possible(m, ev, fix)
    ensures Ordered(After(m, ev, fix).w.rows)
  {
    var w := m.w;
    match ev
    case Tick(env, fates) => TickKeepsOrder(m, env, fates, |fates|);
    case Crash(env, fates, turns, claiming, procs) => CrashKeepsOrder(m, env, fates, turns, claiming, procs);
    case Reap(exits) => ReapingKeepsOrder(w, w.running, exits, |w.running|);
    case ReapAdopted(procs) => ReapingAdoptedKeepsOrder(w, w.adopted, procs, |w.adopted|);
    case KillAdopted(id) => EndingKeepsOrder(w, id, Some(-1));
    case Restart(procs) =>
      RecoveringKeepsOrder(w.rows, InState(w.rows, Running), procs, |InState(w.rows, Running)|);
    case _ => EditKeepsOrder(m, ev, fix);
  }

  // ---- over runs ---------------------------------------------------------

  lemma {:induction false} EveryRunKeepsOrder(ms: seq<Machine>, evs: seq<Event>, fix: Fixture, k: nat)
    requires Run(ms, evs, fix) && Ordered(ms[0].w.rows) && k <= |evs|
    ensures Ordered(ms[k].w.rows)
  {
    if k > 0 {
      EveryRunKeepsOrder(ms, evs, fix, k - 1);
      assert Happens(ms, evs, fix, k - 1);
      EventKeepsOrder(ms[k - 1], evs[k - 1], fix);
    }
  }

  lemma {:induction false} DispatchableInOrder(rows: seq<Row>)
    requires Ordered(rows)
    ensures Ordered(Dispatchable(rows))
  {
    if rows != [] {
      DispatchableInOrder(rows[1..]);
      var rest := Dispatchable(rows[1..]);
      forall j | 0 <= j < |rest| ensures Before(rows[0], rest[j]) {
        DispatchableMembers(rows[1..], rest[j]);
        assert rest[j] in rows;
      }
    }
  }

  /** A tick of any run that began in order meets, each once, exactly the queued rows nobody asked to cancel: the
      lower rank first, then the lower position, then the older job. */
  lemma {:induction false} EveryTickMeetsTheQueueInOrder(
      ms: seq<Machine>, evs: seq<Event>, fix: Fixture, k: nat)
    requires Run(ms, evs, fix) && Consistent(ms[0].w) && Ordered(ms[0].w.rows) && k <= |evs|
    ensures var rows, queue := ms[k].w.rows, Dispatchable(ms[k].w.rows);
      && (forall row :: row in queue <==> row in rows && row.state == Queued && !row.cancelRequested)
      && forall i, j :: 0 <= i < j < |queue| ==>
           && queue[i].id != queue[j].id && queue[i].rank <= queue[j].rank
           && (queue[i].rank == queue[j].rank ==> queue[i].position <= queue[j].position)
           && (queue[i].rank == queue[j].rank && queue[i].position == queue[j].position
               ==> queue[i].id < queue[j].id)
  {
    var rows, queue := ms[k].w.rows, Dispatchable(ms[k].w.rows);
    EveryRunIsConsistent(ms, evs, fix, k);
    EveryRunKeepsOrder(ms, evs, fix, k);
    DispatchableInOrder(rows);
    DispatchableDiffer(rows);
    forall row ensures row in queue <==> row in rows && row.state == Queued && !row.cancelRequested {
      DispatchableMembers(rows, row);
    }
  }
}
