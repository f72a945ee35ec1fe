/** Where a job ends up after its turn, in readings and columns: here, on which other machine, or waiting. */
module TurnRule {
  import opened Wrappers
  import opened Resources
  import opened AdmissionRule
  import opened QueueRows
  import opened Devices
  import opened World
  import opened Placement
  import opened Hold
  import opened HoldClock
  import opened Scan
  import opened StepEffects
  import opened TickTheorems
  import opened DeviceChoice
  import opened HeadRoom
  import Preemption

  // ---- here --------------------------------------------------------------

  /** Enough devices may be had by this job, where there are any to be had. */
  ghost predicate DevicesWillDo(env: TickEnv, w: World, row: Row) {
    row.gpus > 0 && HasGpu(env.node) ==>
      var vram := if row.vram.Some? then row.vram.value else 0.0;
      AllowedCount(w.rows, w.running, env.node.gpu.value.devices, row.mode, vram,
                   GpuPolicy(env.threshold, env.node.reserve.vram)) >= row.gpus
  }

  ghost predicate CanStartHere(env: TickEnv, s: State, row: Row) {
    && s.inFlight < env.slots
    && (env.cfg.enforce ==> Fits(env.cfg, RequestFor(env.cfg, row), RunningRequests(env.cfg, s.w), env.node))
    && DevicesWillDo(env, s.w, row)
    && (s.held.Some? ==> LeavesRoom(env, s.w, s.inFlight, row, s.held.value))
  }

  lemma {:induction false} DevicesAreFoundExactly(env: TickEnv, w: World, row: Row)
    ensures AllocateFor(env, w, row).Some? <==> DevicesWillDo(env, w, row)
  {
    AllocatedExactlyWhenEnoughMayBeHad(
      w.rows, w.running, env.node.gpu, row.gpus, row.mode, DeclaredVram(row), env.Policy());
  }

  /** A job may start here exactly when there is a slot, what it asks for fits beside what runs, enough devices may
      be had, and whoever the queue is held for is left room. */
  lemma {:induction false} StartsHereExactlyWhenItCan(env: TickEnv, s: State, row: Row)
    ensures Judge(env, s, row).Here? <==> CanStartHere(env, s, row)
  {
    AdmittedExactlyWhenItFits(env.cfg, RequestFor(env.cfg, row), RunningRequests(env.cfg, s.w), env.node);
    DevicesAreFoundExactly(env, s.w, row);
    if s.held.Some? {
      HoldLetsThroughExactlyWhatLeavesRoom(env, s.w, s.inFlight, row, s.held.value);
    }
  }

  // ---- which other machine -----------------------------------------------

  /** It may be asked, no earlier failure to place this job there is still being waited out, and by its last
      report, with what was placed there since, it has nothing queued and room. */
  ghost predicate WouldTake(env: TickEnv, s: State, row: Row, node: NodeName, fate: Fate) {
    node !in fate.barred && IsDue(env, s, row.id, node) && HasRoomThere(env, s, row, node)
  }

  predicate IsDue(env: TickEnv, s: State, id: JobId, node: NodeName) {
    Key(id, node) in s.away.failures ==> s.away.failures[Key(id, node)].at <= env.now
  }

  ghost predicate HasRoomThere(env: TickEnv, s: State, row: Row, node: NodeName) {
    && node in s.away.reports
    && var report := s.away.reports[node];
      && report.online && report.compatible && report.queued == 0 && report.snapshot.Some?
      && (env.cfg.enforce ==>
            Fits(env.cfg, RequestFor(env.cfg, row), report.running, report.snapshot.value))
  }

  /** The first in the configured order that would. */
  ghost predicate FirstToTake(env: TickEnv, s: State, row: Row, nodes: seq<NodeName>, fate: Fate, k: nat)
    requires k < |nodes|
  {
    WouldTake(env, s, row, nodes[k], fate) && forall j :: 0 <= j < k ==> !WouldTake(env, s, row, nodes[j], fate)
  }

  /** A later job, free to run anywhere, fits here beside what runs, and not once this one runs too. */
  ghost predicate Blocked(env: TickEnv, s: State, row: Row, other: Row) {
    var running, node := RunningRequests(env.cfg, s.w), env.node.(reserve := env.standing);
    && other.pinned.None? && env.cfg.enforce
    && Fits(env.cfg, RequestFor(env.cfg, other), running, node)
    && !Fits(env.cfg, RequestFor(env.cfg, other), running + [RequestFor(env.cfg, row)], node)
  }

  ghost predicate BlocksSomebody(env: TickEnv, s: State, row: Row, later: seq<Row>) {
    exists k :: 0 <= k < |later| && Blocked(env, s, row, later[k])
  }

  lemma {:induction false} WelcomeMeans(env: TickEnv, s: State, row: Row, node: NodeName)
    ensures MayTry(s.away.failures, Key(row.id, node), env.now) <==> IsDue(env, s, row.id, node)
    ensures Welcomes(env.cfg, s.away, node, RequestFor(env.cfg, row)) <==> HasRoomThere(env, s, row, node)
  {
    if node in s.away.reports && s.away.reports[node].snapshot.Some? {
      var report := s.away.reports[node];
      AdmittedExactlyWhenItFits(env.cfg, RequestFor(env.cfg, row), report.running, report.snapshot.value);
    }
  }

  lemma {:induction false} FirstWelcomingIsFirst(env: TickEnv, s: State, row: Row, nodes: seq<NodeName>, fate: Fate)
    ensures var found := FirstWelcoming(env, s, row, nodes, fate);
      && (found.None? <==> forall k :: 0 <= k < |nodes| ==> !WouldTake(env, s, row, nodes[k], fate))
      && (found.Some? ==>
            exists k :: 0 <= k < |nodes| && nodes[k] == found.value && FirstToTake(env, s, row, nodes, fate, k))
  {
    if nodes != [] {
      WelcomeMeans(env, s, row, nodes[0]);
      if WouldTake(env, s, row, nodes[0], fate) {
        assert FirstToTake(env, s, row, nodes, fate, 0);
      } else {
        FirstWelcomingIsFirst(env, s, row, nodes[1..], fate);
        forall k | 0 < k < |nodes| ensures nodes[k] == nodes[1..][k - 1] {
        }
        var found := FirstWelcoming(env, s, row, nodes[1..], fate);
        if found.Some? {
          var k :| 0 <= k < |nodes[1..]|
            && nodes[1..][k] == found.value && FirstToTake(env, s, row, nodes[1..], fate, k);
          assert FirstToTake(env, s, row, nodes, fate, k + 1);
        }
      }
    }
  }

  lemma {:induction false} BlockingOne(env: TickEnv, s: State, row: Row, later: seq<Row>)
    requires later != []
    ensures BlocksSomebody(env, s, row, later)
      <==> Blocked(env, s, row, later[0]) || BlocksSomebody(env, s, row, later[1..])
  {
    if BlocksSomebody(env, s, row, later[1..]) {
      var k :| 0 <= k < |later[1..]| && Blocked(env, s, row, later[1..][k]);
      assert Blocked(env, s, row, later[k + 1]);
    }
    forall k | 0 < k < |later| && Blocked(env, s, row, later[k]) ensures BlocksSomebody(env, s, row, later[1..]) {
      assert Blocked(env, s, row, later[1..][k - 1]);
    }
  }

  lemma {:induction false} FreesExactlyTheBlocked(env: TickEnv, s: State, row: Row, later: seq<Row>)
    ensures FreesALater(env, s, RequestFor(env.cfg, row), later) <==> BlocksSomebody(env, s, row, later)
  {
    if later != [] {
      var running, node := RunningRequests(env.cfg, s.w), env.node.(reserve := env.standing);
      var theirs := RequestFor(env.cfg, later[0]);
      AdmittedExactlyWhenItFits(env.cfg, theirs, running, node);
      AdmittedExactlyWhenItFits(env.cfg, theirs, running + [RequestFor(env.cfg, row)], node);
      BlockingOne(env, s, row, later);
      FreesExactlyTheBlocked(env, s, row, later[1..]);
    }
  }

  /** Another machine is looked for: the job can be shipped, placement is on, and here it cannot start or would
      stand in a later job's way. */
  ghost predicate LooksElsewhere(env: TickEnv, s: State, row: Row, later: seq<Row>, localOk: bool) {
    env.sched.autoPlacement && row.travels && (localOk ==> BlocksSomebody(env, s, row, later))
  }

  /** Then it is the first machine that would take the job. */
  lemma {:induction false} ChoosesTheFirstThatWouldTake(
      env: TickEnv, s: State, row: Row, later: seq<Row>, localOk: bool, fate: Fate)
    ensures var chosen := ChooseNode(env, s, row, later, localOk, fate);
      && (chosen.None? <==>
            (LooksElsewhere(env, s, row, later, localOk) ==>
               forall k :: 0 <= k < |env.nodes| ==> !WouldTake(env, s, row, env.nodes[k], fate)))
      && (chosen.Some? ==>
            exists k :: 0 <= k < |env.nodes| && env.nodes[k] == chosen.value
              && FirstToTake(env, s, row, env.nodes, fate, k))
  {
    FreesExactlyTheBlocked(env, s, row, later);
    FirstWelcomingIsFirst(env, s, row, env.nodes, fate);
  }

  // ---- the turn ----------------------------------------------------------

  /** Some machine would take the job, and took it. */
  ghost predicate Placed(env: TickEnv, s: State, row: Row, later: seq<Row>, localOk: bool, fate: Fate) {
    && LooksElsewhere(env, s, row, later, localOk) && fate.shipped.Some?
    && exists k :: 0 <= k < |env.nodes| && WouldTake(env, s, row, env.nodes[k], fate)
  }

  /** The row of a job that went to another machine. */
  ghost predicate WentElsewhere(env: TickEnv, s: State, row: Row, fate: Fate, after: Row) {
    && fate.shipped.Some?
    && (exists k :: 0 <= k < |env.nodes| && FirstToTake(env, s, row, env.nodes, fate, k)
          && after.node == Some(env.nodes[k]))
    && after == row.(state := Running, startedAt := Some(env.now), remoteId := fate.shipped, node := after.node)
  }

  predicate StartedHere(env: TickEnv, row: Row, fate: Fate, after: Row) {
    && fate.launch.Launches?
    && after == row.(state := Running, startedAt := Some(env.now),
                     pid := Some(fate.launch.pid), creation := fate.launch.creation)
  }

  /** It could not be started at all: finished, with the exit code of a command not found. */
  predicate GivenUp(row: Row, now: real, after: Row) {
    after == row.(state := BackendState.Finished, exit := Some(127), pid := None, creation := None,
                  startedAt := if row.argvOk then Some(now) else row.startedAt)
  }

  /** A turn of a job free to go anywhere, while this machine still takes jobs: it goes where it is placed, else
      starts here if it can, else stays as it was. */
  ghost predicate EndsUp(env: TickEnv, s: State, row: Row, later: seq<Row>, fate: Fate, after: Row) {
    var here := CanStartHere(env, s, row);
    if Placed(env, s, row, later, here, fate) then WentElsewhere(env, s, row, fate, after)
    else if !here then after == row
    else if !row.argvOk || fate.launch.SpawnFails? then GivenUp(row, env.now, after)
    else StartedHere(env, row, fate, after)
  }

  lemma {:induction false} RefusingKeepsTheRow(env: TickEnv, s: State, row: Row)
    requires Find(s.w.rows, row.id) == Some(row) && row.state == Queued
    ensures Find(RefusedStep(env, s, row).w.rows, row.id) == Some(row)
  {
    RefusalMarks(env, s, row);
    var victims := Preemption.RowIds(Preemption.Victims(env, s.w, row));
    Preemption.MarkingOnlyFlags(s.w.rows, victims, Some(row.id), row.id);
  }

  lemma {:induction false} StartingSetsTheRow(env: TickEnv, s: State, row: Row, devices: seq<int>, fate: Fate)
    requires Find(s.w.rows, row.id) == Some(row) && row.state == Queued && row.pid.None? && row.node.None?
    ensures var after := Find(LocalStart(env, s, row, devices, fate).w.rows, row.id);
      && after.Some?
      && (if !row.argvOk || fate.launch.SpawnFails? then GivenUp(row, env.now, after.value)
          else StartedHere(env, row, fate, after.value))
  {
    var claimed := row.(state := Running, startedAt := Some(env.now));
    PutFacts(s.w.rows, FinishedRow(row, Some(127)), row.id);
    PutFacts(s.w.rows, FinishedRow(claimed, Some(127)), row.id);
    if fate.launch.Launches? {
      PutFacts(s.w.rows, claimed.(pid := Some(fate.launch.pid), creation := fate.launch.creation), row.id);
    }
  }

  lemma {:induction false} PlacingSetsTheRow(env: TickEnv, s: State, row: Row, node: NodeName, fate: Fate)
    requires Find(s.w.rows, row.id) == Some(row) && row.state == Queued && row.travels
    ensures var (s', ok) := RemoteAttempt(env, s, row, node, fate);
      && (ok <==> fate.shipped.Some?)
      && (!ok ==> s'.w == s.w)
      && (ok ==> Find(s'.w.rows, row.id) == Some(row.(
            state := Running, startedAt := Some(env.now), node := Some(node), remoteId := fate.shipped)))
  {
    if fate.shipped.Some? {
      PutFacts(s.w.rows, row.(
        state := Running, startedAt := Some(env.now), node := Some(node), remoteId := fate.shipped), row.id);
    }
  }

  lemma {:induction false} FreeTurnEndsUp(env: TickEnv, s: State, row: Row, later: seq<Row>, fate: Fate)
    requires Find(s.w.rows, row.id) == Some(row) && row.state == Queued && row.pid.None? && row.node.None?
    ensures var after := Find(FreeStep(env, s, row, later, fate).w.rows, row.id);
      after.Some? && EndsUp(env, s, row, later, fate, after.value)
  {
    var verdict := Judge(env, s, row);
    StartsHereExactlyWhenItCan(env, s, row);
    ChoosesTheFirstThatWouldTake(env, s, row, later, verdict.Here?, fate);
    var chosen := ChooseNode(env, s, row, later, verdict.Here?, fate);
    if chosen.Some? {
      PlacingSetsTheRow(env, s, row, chosen.value, fate);
      FailedAttemptChangesNothing(env, s, row, chosen.value, fate);
      var s' := RemoteAttempt(env, s, row, chosen.value, fate).0;
      if verdict.Here? && fate.shipped.None? {
        StartingSetsTheRow(env, s', row, verdict.devices, fate);
      }
    } else if verdict.Here? {
      StartingSetsTheRow(env, s, row, verdict.devices, fate);
    } else {
      RefusingKeepsTheRow(env, s, row);
    }
  }

  /** The machine a job is pinned to is registered and would take it. */
  ghost predicate PinnedPlaced(env: TickEnv, s: State, row: Row, node: NodeName, fate: Fate) {
    && node in env.nodes && IsDue(env, s, row.id, node) && HasRoomThere(env, s, row, node)
    && row.travels && fate.shipped.Some?
  }

  /** What the turn finds: reports that arrived meanwhile count. */
  function Updated(s: State, fate: Fate): State {
    s.(away := s.away.(reports := s.away.reports + fate.polled))
  }

  lemma {:induction false} PinnedEndsUp(env: TickEnv, s: State, row: Row, fate: Fate)
    requires Find(s.w.rows, row.id) == Some(row) && row.state == Queued && row.pinned.Some?
    ensures Find(PinnedStep(env, s, row, fate).w.rows, row.id) == Some(
      if PinnedPlaced(env, s, row, row.pinned.value, fate)
      then row.(state := Running, startedAt := Some(env.now), remoteId := fate.shipped, node := row.pinned) else row)
  {
    WelcomeMeans(env, s, row, row.pinned.value);
    if row.travels {
      PlacingSetsTheRow(env, s, row, row.pinned.value, fate);
    }
  }

  lemma {:induction false} ClosedEndsUp(env: TickEnv, s: State, row: Row, later: seq<Row>, fate: Fate)
    requires Find(s.w.rows, row.id) == Some(row) && row.state == Queued
    ensures var after := Find(ElsewhereStep(env, s, row, later, fate).w.rows, row.id);
      && after.Some?
      && (if Placed(env, s, row, later, false, fate) then WentElsewhere(env, s, row, fate, after.value)
          else after.value == row)
  {
    ChoosesTheFirstThatWouldTake(env, s, row, later, false, fate);
    var chosen := ChooseNode(env, s, row, later, false, fate);
    if chosen.Some? {
      PlacingSetsTheRow(env, s, row, chosen.value, fate);
    }
  }

  /** Where a waiting job is to be found after its turn. */
  ghost predicate Destined(env: TickEnv, s: State, row: Row, later: seq<Row>, fate: Fate, after: Row) {
    if row.pinned.Some? then
      after == if PinnedPlaced(env, s, row, row.pinned.value, fate)
        then row.(state := Running, startedAt := Some(env.now), remoteId := fate.shipped, node := row.pinned) else row
    else if s.closed then
      if Placed(env, s, row, later, false, fate) then WentElsewhere(env, s, row, fate, after) else after == row
    else EndsUp(env, s, row, later, fate, after)
  }

  /** Pinned, it is on its machine or still waiting; once this machine takes nothing more, on the first other that
      would take it or still waiting; otherwise as above. */
  lemma {:induction false} EndsUpWhereItShould(env: TickEnv, s: State, row: Row, later: seq<Row>, fate: Fate)
    requires Find(s.w.rows, row.id) == Some(row) && row.state == Queued && row.pid.None? && row.node.None?
    requires !fate.withdrawn
    ensures var after := Find(Step(env, s, row, later, fate).w.rows, row.id);
      after.Some? && Destined(env, Updated(s, fate), row, later, fate, after.value)
  {
    var now := Updated(s, fate);
    if row.pinned.Some? {
      PinnedEndsUp(env, now, row, fate);
    } else if s.closed {
      ClosedEndsUp(env, now, row, later, fate);
    } else {
      FreeTurnEndsUp(env, now, row, later, fate);
    }
  }

  /** So of a tick, turn by turn: each waiting job, as the jobs before it have left things, ends up where it should,
      with those behind it in the queue for whom it may be in the way. */
  lemma {:induction false} EachTurnEndsUpWhereItShould(
      env: TickEnv, s: State, queue: seq<Row>, fates: seq<Fate>, k: nat)
    requires WalkStart(s, queue, fates) && k < |queue| && !fates[k].withdrawn
    ensures var now := Updated(Walk(env, s, queue, fates, k), fates[k]);
      var after := Find(Walk(env, s, queue, fates, k + 1).w.rows, queue[k].id);
      after.Some? && Destined(env, now, queue[k], queue[k + 1..], fates[k], after.value)
  {
    var t := Walk(env, s, queue, fates, k);
    WalkStaysReady(env, s, queue, fates, k);
    assert queue[k..][0] == queue[k];
    assert Agrees(t.w, queue[k].id);
    TurnEndsUp(env, s, t, queue, fates, k);
  }

  lemma {:induction false} TurnEndsUp(
      env: TickEnv, s: State, t: State, queue: seq<Row>, fates: seq<Fate>, k: nat)
    requires k < |queue| == |fates| && t == Walk(env, s, queue, fates, k) && !fates[k].withdrawn
    requires Find(t.w.rows, queue[k].id) == Some(queue[k]) && queue[k].state == Queued
    requires queue[k].pid.None? && queue[k].node.None?
    ensures var after := Find(Walk(env, s, queue, fates, k + 1).w.rows, queue[k].id);
      after.Some? && Destined(env, Updated(t, fates[k]), queue[k], queue[k + 1..], fates[k], after.value)
  {
    EndsUpWhereItShould(env, t, queue[k], queue[k + 1..], fates[k]);
  }

  // ---- how long a job has waited -----------------------------------------

  /** Nobody else's waiting is touched, a wait once begun keeps its beginning, and it begins now or never. */
  predicate NotedFirst(before: map<JobId, real>, after: map<JobId, real>, id: JobId, now: real) {
    && (forall other :: other in before && other != id ==> other in after && after[other] == before[other])
    && (forall other :: other in after && other != id ==> other in before)
    && (id in after ==> after[id] == if id in before then before[id] else now)
  }

  predicate StillWaits(s: State, id: JobId) {
    Find(s.w.rows, id).Some? && Find(s.w.rows, id).value.state == Queued
  }

  predicate NowRuns(s: State, id: JobId) {
    Find(s.w.rows, id).Some? && Find(s.w.rows, id).value.state == Running
  }

  /** A job's wait goes on while it waits, and is over once it runs. */
  predicate WaitsOn(s: State, s': State, id: JobId) {
    && (StillWaits(s', id) ==> id in s'.blocked)
    && (NowRuns(s', id) ==> NowRuns(s, id) || id !in s'.blocked)
  }

  lemma {:induction false} StartingNotes(env: TickEnv, s: State, row: Row, devices: seq<int>, fate: Fate)
    ensures var s' := LocalStart(env, s, row, devices, fate);
      && NotedFirst(s.blocked, s'.blocked, row.id, env.now)
      && !StillWaits(s', row.id) && WaitsOn(s, s', row.id)
  {
    FindMeansListed(s.w.rows, row.id);
    var found := Find(s.w.rows, row.id);
    if found.Some? {
      var claimed := found.value.(state := Running, startedAt := Some(env.now));
      PutFacts(s.w.rows, FinishedRow(found.value, Some(127)), row.id);
      PutFacts(s.w.rows, FinishedRow(claimed, Some(127)), row.id);
      if fate.launch.Launches? {
        PutFacts(s.w.rows, claimed.(pid := Some(fate.launch.pid), creation := fate.launch.creation), row.id);
      }
    }
  }

  lemma {:induction false} PlacingNotes(env: TickEnv, s: State, row: Row, node: NodeName, fate: Fate)
    ensures var (s', ok) := RemoteAttempt(env, s, row, node, fate);
      && NotedFirst(s.blocked, s'.blocked, row.id, env.now)
      && WaitsOn(s, s', row.id) && (!ok ==> s'.w == s.w)
      && (!ok && row.id in s.blocked ==> row.id in s'.blocked)
  {
    FindMeansListed(s.w.rows, row.id);
    var found := Find(s.w.rows, row.id);
    if found.Some? && fate.shipped.Some? {
      PutFacts(s.w.rows, found.value.(
        state := Running, startedAt := Some(env.now), node := Some(node), remoteId := fate.shipped), row.id);
    }
  }

  lemma {:induction false} FreeTurnNotes(env: TickEnv, s: State, row: Row, later: seq<Row>, fate: Fate)
    ensures var s' := FreeStep(env, s, row, later, fate);
      NotedFirst(s.blocked, s'.blocked, row.id, env.now) && WaitsOn(s, s', row.id)
  {
    var verdict := Judge(env, s, row);
    var chosen := ChooseNode(env, s, row, later, verdict.Here?, fate);
    var s' := s;
    if chosen.Some? {
      PlacingNotes(env, s, row, chosen.value, fate);
      s' := RemoteAttempt(env, s, row, chosen.value, fate).0;
    }
    if verdict.Here? {
      StartingNotes(env, s', row, verdict.devices, fate);
    } else if chosen.None? {
      RefusingNotes(env, s, row);
    }
  }

  lemma {:induction false} RefusingNotes(env: TickEnv, s: State, row: Row)
    ensures RefusedStep(env, s, row).blocked == Noted(env, s, row.id).blocked
    ensures NowRuns(RefusedStep(env, s, row), row.id) ==> NowRuns(s, row.id)
  {
    RefusalMarks(env, s, row);
    var victims := Preemption.RowIds(Preemption.Victims(env, s.w, row));
    Preemption.MarkingOnlyFlags(s.w.rows, victims, Some(row.id), row.id);
  }

  lemma {:induction false} PlacedTurnNotes(env: TickEnv, s: State, row: Row, later: seq<Row>, fate: Fate)
    requires row.pinned.Some? || s.closed
    ensures var s' :=
        if row.pinned.Some? then PinnedStep(env, s, row, fate) else ElsewhereStep(env, s, row, later, fate);
      NotedFirst(s.blocked, s'.blocked, row.id, env.now) && WaitsOn(s, s', row.id)
  {
    if row.pinned.Some? {
      PlacingNotes(env, s, row, row.pinned.value, fate);
    } else {
      var chosen := ChooseNode(env, s, row, later, false, fate);
      if chosen.Some? {
        PlacingNotes(env, s, row, chosen.value, fate);
      }
    }
  }

  lemma {:induction false} WithdrawnRunsNoMore(s: State, row: Row, fate: Fate)
    ensures NowRuns(Meanwhile(s, row, fate), row.id) ==> NowRuns(s, row.id)
    ensures Meanwhile(s, row, fate).blocked == s.blocked
  {
    FindMeansListed(s.w.rows, row.id);
    if Find(s.w.rows, row.id).Some? {
      PutFacts(s.w.rows, Find(s.w.rows, row.id).value.(state := Removed), row.id);
    }
  }

  /** A job's wait is counted from the first turn that left it waiting, until it runs. */
  lemma {:induction false} WaitsSinceItsFirstRefusal(
      env: TickEnv, s: State, row: Row, later: seq<Row>, fate: Fate)
    ensures var s' := Step(env, s, row, later, fate);
      NotedFirst(s.blocked, s'.blocked, row.id, env.now) && WaitsOn(s, s', row.id)
  {
    var s1 := Meanwhile(s, row, fate);
    WithdrawnRunsNoMore(s, row, fate);
    if row.pinned.Some? || s1.closed {
      PlacedTurnNotes(env, s1, row, later, fate);
    } else {
      FreeTurnNotes(env, s1, row, later, fate);
    }
  }

  // ---- holding the queue -------------------------------------------------

  /** No end of running jobs would let the job start here: none runs, or it asks for more than the machine gives to
      jobs, or for more than is free and declared together. */
  ghost predicate Hopeless(env: TickEnv, w: World, inFlight: nat, row: Row) {
    var asks, node := RequestFor(env.cfg, row), env.node;
    || inFlight == 0
    || (asks.cpus > node.cpus - node.reserve.cpus && asks.cpus > 1)
    || (asks.ram > 0.0 && asks.ram > Reading(node.mem.total) - node.reserve.ram)
    || (HasGpu(node) && asks.gpus > |node.gpu.value.devices|)
    || !RamIsFree(env.cfg, asks.ram - Sum(RunningRequests(env.cfg, w), RamIn), node.mem)
  }

  lemma {:induction false} FutileExactlyWhenHopeless(env: TickEnv, w: World, inFlight: nat, row: Row)
    ensures HoldFutility(env, w, inFlight, row).Some? <==> Hopeless(env, w, inFlight, row)
  {
    LedgerIsTheSum(RunningRequests(env.cfg, w));
    Percentage(CapacityOf(env.node).totalRam, env.cfg.minHostFreePercent);
  }

  /** How long it has waited and been held for, by what was noted. */
  function Waited(s: State, id: JobId, now: real): real {
    if id in s.blocked && s.blocked[id] < now then now - s.blocked[id] else 0.0
  }

  function HeldFor(clock: Clock, id: JobId, now: real): real {
    (if id in clock.spent then clock.spent[id] else 0.0) + (if id in clock.since then now - clock.since[id] else 0.0)
  }

  /** A stretch of holding goes on or begins. */
  predicate StretchRuns(before: Clock, after: Clock, id: JobId, now: real) {
    && after.spent == before.spent
    && after.since == before.since[id := if id in before.since then before.since[id] else now]
  }

  /** A stretch ends, and what it took is kept. */
  predicate StretchEnds(before: Clock, after: Clock, id: JobId, now: real) {
    && after.since == before.since - {id}
    && after.spent == if id in before.since then before.spent[id := HeldFor(before, id, now)] else before.spent
  }

  /** What a tick makes of its first refused job: hold the queue for it or not, and whether its stretch goes on. */
  ghost predicate HoldsOrNot(env: TickEnv, s: State, s': State, row: Row) {
    var worthIt := Waited(s, row.id, env.now) >= env.sched.headWait && !Hopeless(env, s.w, s.inFlight, row);
    && s'.held == (if worthIt && HeldFor(s.clock, row.id, env.now) < env.sched.maxHold then Some(row) else s.held)
    && (if worthIt then StretchRuns(s.clock, s'.clock, row.id, env.now)
        else StretchEnds(s.clock, s'.clock, row.id, env.now))
  }

  lemma {:induction false} ConsideredHolds(env: TickEnv, s: State, row: Row)
    ensures HoldsOrNot(env, s, HoldStep(env, s, row), row)
  {
    FutileExactlyWhenHopeless(env, s.w, s.inFlight, row);
  }

  /** The queue is held for the first job refused in a tick exactly when it has waited long enough, is not hopeless
      and has not used up its budget. Its stretch ends when it is out of the question, but not when only the
      budget is used up. */
  lemma {:induction false} HeldExactlyWhenItShould(env: TickEnv, s: State, row: Row)
    requires s.head.None? && env.sched.backfill
    ensures HoldsOrNot(env, s, RefusedStep(env, s, row), row)
  {
    var s1 := HeadStep(env, Noted(env, s, row.id), row);
    HopelessBesideMarks(env, s.w, row);
    ConsideredHolds(env, s1, row);
    HoldingIsAllThatChanges(env, s, row);
  }

  lemma {:induction false} HoldingIsAllThatChanges(env: TickEnv, s: State, row: Row)
    requires s.head.None? && env.sched.backfill
    ensures var held := HoldStep(env, HeadStep(env, Noted(env, s, row.id), row), row);
      RefusedStep(env, s, row).held == held.held && RefusedStep(env, s, row).clock == held.clock
  {
  }

  lemma {:induction false} HopelessBesideMarks(env: TickEnv, w: World, row: Row)
    ensures RunningRequests(env.cfg, Preemption.Displaced(env, w, row)) == RunningRequests(env.cfg, w)
  {
    var victims := Preemption.RowIds(Preemption.Victims(env, w, row));
    Preemption.MarkingKeepsLedger(env.cfg, w.rows, victims, Some(row.id), w.Active());
  }

  // ---- what a tick begins with -------------------------------------------

  ghost predicate WaitsIn(rows: seq<Row>, id: JobId) {
    exists k :: 0 <= k < |rows| && rows[k].id == id && rows[k].state == Queued && !rows[k].cancelRequested
  }

  lemma {:induction false} WaitingAreListed(rows: seq<Row>, id: JobId)
    ensures id in Ids(Dispatchable(rows)) <==> WaitsIn(rows, id)
  {
    if rows != [] {
      WaitingAreListed(rows[1..], id);
      var rest := Dispatchable(rows[1..]);
      assert ([rows[0]] + rest)[1..] == rest && [] + rest == rest;
      forall k | 0 <= k < |rows[1..]| ensures rows[1..][k] == rows[k + 1] {
      }
      if WaitsIn(rows, id) {
        var k :| 0 <= k < |rows| && rows[k].id == id && rows[k].state == Queued && !rows[k].cancelRequested;
        assert k > 0 ==> rows[1..][k - 1] == rows[k];
      }
    }
  }

  /** A tick begins by forgetting the holds and the failed placements of jobs that no longer wait, and those
      alone. */
  lemma {:induction false} ForgetsExactlyTheGone(
      w: World, clock: Clock, blocked: map<JobId, real>, away: Elsewhere, id: JobId, node: NodeName)
    ensures var s := Begin(w, clock, blocked, away);
      && (id in s.clock.since <==> id in clock.since && WaitsIn(w.rows, id))
      && (id in s.clock.since ==> s.clock.since[id] == clock.since[id])
      && (id in s.clock.spent <==> id in clock.spent && WaitsIn(w.rows, id))
      && (id in s.clock.spent ==> s.clock.spent[id] == clock.spent[id])
      && (Key(id, node) in s.away.failures <==> Key(id, node) in away.failures && WaitsIn(w.rows, id))
      && (Key(id, node) in s.away.failures ==> s.away.failures[Key(id, node)] == away.failures[Key(id, node)])
      && s.w == w && s.blocked == blocked && s.away.reports == away.reports
      && s.inFlight == |w.running| + |w.adopted| && s.head == None && s.held == None && !s.closed && s.skipped == 0
  {
    WaitingAreListed(w.rows, id);
  }
}
