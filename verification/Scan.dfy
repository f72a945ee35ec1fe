/** One scheduling tick as a function: the walk over the queue that decides, job by job, whether it
    starts here, goes to another machine or waits.

    What the walk cannot decide (what other machines report and whether they take a job, whether a
    process launches, whether another process withdraws a job meanwhile) is given to it per job as a
    `Fate`. */
module Scan {
  import opened Wrappers
  import opened Resources
  import opened QueueRows
  import opened Devices
  import opened World
  import opened Hold
  import opened HoldClock
  import opened Placement
  import Preemption

  datatype Launch = Launches(pid: int, creation: Option<int>) | SpawnFails

  datatype Fate = Fate(
    withdrawn: bool,                   // another process removes the job before it can be claimed
    polled: map<NodeName, Report>,     // reports that arrived since the turn before
    barred: set<NodeName>,             // machines placement does not ask: down, not staged, no time left
    shipped: Option<int>,              // the remote id, when shipping and submitting succeed
    launch: Launch)

  datatype Asked = Asked(request: ResourceRequest, mode: GpuMode)

  datatype State = State(
    w: World, inFlight: nat, head: Option<Row>, held: Option<Row>,
    skipped: nat, refused: seq<Asked>, closed: bool, clock: Clock, blocked: map<JobId, real>,
    away: Elsewhere)

  // ---- the dominance shortcut --------------------------------------------

  /** The later job asks for everything the earlier did, and no more leniently. */
  predicate AsksAtLeast(later: Asked, earlier: Asked) {
    Within(earlier.request, later.request)
    && !(earlier.request.gpus > 0 && later.mode != earlier.mode && later.mode == Shared)
  }

  function AskOf(env: TickEnv, row: Row): Asked {
    Asked(RequestFor(env.cfg, row), row.mode)
  }

  // ---- the local verdict -------------------------------------------------

  datatype Why = SlotsFull | NotAdmitted(refusal: Refusal) | NoDevices | HeldBack(axis: Axis)

  datatype Verdict = Here(devices: seq<int>) | NotHere(why: Why)

  function Judge(env: TickEnv, s: State, row: Row): Verdict {
    if s.inFlight >= env.slots then NotHere(SlotsFull)
    else
      var decision := Admit(env.cfg, RequestFor(env.cfg, row), RunningRequests(env.cfg, s.w), env.node);
      if decision.Refused? then NotHere(NotAdmitted(decision.why))
      else
        var devices := AllocateFor(env, s.w, row);
        if devices.None? then NotHere(NoDevices)
        else if s.held.Some? && HoldConflict(env, s.w, s.inFlight, row, s.held.value).Some?
        then NotHere(HeldBack(HoldConflict(env, s.w, s.inFlight, row, s.held.value).value))
        else Here(devices.value)
  }

  // ---- bookkeeping -------------------------------------------------------

  function Noted(env: TickEnv, s: State, id: JobId): State {
    if id in s.blocked then s else s.(blocked := s.blocked[id := env.now])
  }

  function Unblocked(s: State, id: JobId): State {
    s.(blocked := s.blocked - {id})
  }

  function Skipped(env: TickEnv, s: State): State {
    s.(skipped := s.skipped + 1, closed := s.closed || s.skipped + 1 > env.sched.maxSkip)
  }

  function SetRow(s: State, row: Row): State {
    s.(w := s.w.(rows := Put(s.w.rows, row)))
  }

  /** Finishing is unconditional: it does not look at the state the row was in. */
  function FinishedRow(row: Row, exit: Option<int>): Row {
    row.(state := BackendState.Finished, exit := exit, pid := None, creation := None)
  }

  function Withdrawn(s: State, id: JobId): State {
    var row := Find(s.w.rows, id);
    if row.Some? && row.value.state == Queued then SetRow(s, row.value.(state := Removed)) else s
  }

  /** The stored row, if it can still be claimed. */
  function Claimable(s: State, id: JobId): Option<Row> {
    var row := Find(s.w.rows, id);
    if row.Some? && row.value.state == Queued then row else None
  }

  // ---- starting ----------------------------------------------------------

  /** Ship and submit, then claim. A placement that fails is put off; a copy queued elsewhere for a row
      that could not be claimed any more is taken back. */
  function RemoteAttempt(env: TickEnv, s: State, row: Row, node: NodeName, fate: Fate): (State, bool) {
    var key := Key(row.id, node);
    if !row.travels then (Noted(env, s, row.id), false)
    else if fate.shipped.None? then
      (Noted(env, s, row.id).(away := s.away.(failures := Failed(s.away.failures, key, env.now))), false)
    else
      var stored := Claimable(s, row.id);
      if stored.None? then (s.(away := s.away.(recalls := s.away.recalls + [Recall(node, fate.shipped.value)])), false)
      else
        var claimed := stored.value.(
          state := Running, startedAt := Some(env.now), node := Some(node), remoteId := Some(fate.shipped.value));
        (Unblocked(SetRow(s, claimed), row.id).(away := PlacedOn(s.away, key, RequestFor(env.cfg, row))), true)
  }

  /** A job just claimed is launched, or finished if its process does not start. */
  function AfterClaim(s: State, claimed: Row, devices: seq<int>, launch: Launch): State {
    match launch
    case SpawnFails => SetRow(s, FinishedRow(claimed, Some(127)))
    case Launches(pid, creation) =>
      var s' := SetRow(s, claimed.(pid := Some(pid), creation := creation));
      Unblocked(
        s'.(w := s'.w.(running := s.w.running + [RunningJob(claimed.id, devices)]), inFlight := s.inFlight + 1),
        claimed.id)
  }

  function LocalStart(env: TickEnv, s: State, row: Row, devices: seq<int>, fate: Fate): State {
    var found := Find(s.w.rows, row.id);
    if found.None? then s
    else if !row.argvOk then SetRow(s, FinishedRow(found.value, Some(127)))
    else if found.value.state != Queued then s
    else AfterClaim(s, found.value.(state := Running, startedAt := Some(env.now)), devices, fate.launch)
  }

  // ---- placement ---------------------------------------------------------

  /** A later job, free to run anywhere, that cannot start beside this one but could without it. The
      source asks this against the configured reserve rather than the one in force. */
  function FreesALater(env: TickEnv, s: State, mine: ResourceRequest, later: seq<Row>): bool {
    if later == [] then false
    else
      var running := RunningRequests(env.cfg, s.w);
      var node := env.node.(reserve := env.standing);
      var theirs := RequestFor(env.cfg, later[0]);
      || (later[0].pinned.None?
          && Admit(env.cfg, theirs, running + [mine], node).Refused?
          && Admit(env.cfg, theirs, running, node).Admitted?)
      || FreesALater(env, s, mine, later[1..])
  }

  /** The first machine that may be asked, whose placements of this job are not put off, and that would
      take it. */
  function FirstWelcoming(env: TickEnv, s: State, row: Row, nodes: seq<NodeName>, fate: Fate): Option<NodeName> {
    if nodes == [] then None
    else if nodes[0] !in fate.barred && MayTry(s.away.failures, Key(row.id, nodes[0]), env.now)
      && Welcomes(env.cfg, s.away, nodes[0], RequestFor(env.cfg, row)) then Some(nodes[0])
    else FirstWelcoming(env, s, row, nodes[1..], fate)
  }

  function ChooseNode(env: TickEnv, s: State, row: Row, later: seq<Row>, localOk: bool, fate: Fate): Option<NodeName> {
    if !env.sched.autoPlacement || !row.travels then None
    else if localOk && !FreesALater(env, s, RequestFor(env.cfg, row), later) then None
    else FirstWelcoming(env, s, row, env.nodes, fate)
  }

  // ---- the walk ----------------------------------------------------------

  /** A job pinned to a machine goes there or waits: the machine must be registered, the placement not put
      off, and its report must welcome the job. */
  function TryPinned(env: TickEnv, s: State, row: Row, node: NodeName, fate: Fate): (State, bool) {
    if node in env.nodes && MayTry(s.away.failures, Key(row.id, node), env.now)
      && Welcomes(env.cfg, s.away, node, RequestFor(env.cfg, row))
    then RemoteAttempt(env, s, row, node, fate)
    else (s, false)
  }

  function PinnedStep(env: TickEnv, s: State, row: Row, fate: Fate): State
    requires row.pinned.Some?
  {
    var (s', ok) := TryPinned(env, s, row, row.pinned.value, fate);
    if ok then s' else Skipped(env, Noted(env, s', row.id))
  }

  function ElsewhereStep(env: TickEnv, s: State, row: Row, later: seq<Row>, fate: Fate): State {
    var chosen := ChooseNode(env, s, row, later, false, fate);
    if chosen.Some? then RemoteAttempt(env, s, row, chosen.value, fate).0
    else Noted(env, s, row.id)
  }

  /** How long a job has been unable to start, by the first refusal noted for it. */
  function WaitedFor(env: TickEnv, s: State, id: JobId): real {
    if id in s.blocked then Max(0.0, env.now - s.blocked[id]) else 0.0
  }

  function CallFor(env: TickEnv, s: State, head: Row): HoldCall {
    HoldCall(head.id, WaitedFor(env, s, head.id), HoldFutility(env, s.w, s.inFlight, head).Some?)
  }

  function HeadStep(env: TickEnv, s: State, row: Row): State {
    s.(head := Some(row), w := Preemption.Displaced(env, s.w, row))
  }

  function HoldStep(env: TickEnv, s: State, row: Row): State {
    var call := CallFor(env, s, row);
    var clock := Considered(s.clock, call, env.now, env.sched.headWait);
    s.(clock := clock,
       held := if Granted(clock, call, env.now, env.sched.headWait, env.sched.maxHold) then Some(row) else s.held)
  }

  function CountStep(env: TickEnv, s: State, row: Row): State {
    var ask := AskOf(env, row);
    var counted := if exists r :: r in s.refused && AsksAtLeast(ask, r) then s.skipped else s.skipped + 1;
    s.(refused := s.refused + [ask], skipped := counted, closed := s.closed || counted > env.sched.maxSkip)
  }

  function RefusedStep(env: TickEnv, s: State, row: Row): State {
    var noted := Noted(env, s, row.id);
    var first := noted.head.None?;
    var s1 := if first then HeadStep(env, noted, row) else noted;
    if !env.sched.backfill then s1.(closed := true)
    else CountStep(env, if first then HoldStep(env, s1, row) else s1, row)
  }

  /** A job that stays: refused, passed over, or started here. `offered` when a machine was found for it
      but the placement failed. */
  function StayStep(env: TickEnv, s: State, row: Row, verdict: Verdict, offered: bool, fate: Fate): State {
    if verdict.NotHere? then
      if offered then Skipped(env, Noted(env, s, row.id)) else RefusedStep(env, s, row)
    else LocalStart(env, s, row, verdict.devices, fate)
  }

  function FreeStep(env: TickEnv, s: State, row: Row, later: seq<Row>, fate: Fate): State {
    var verdict := Judge(env, s, row);
    var chosen := ChooseNode(env, s, row, later, verdict.Here?, fate);
    var (s', away) := if chosen.Some? then RemoteAttempt(env, s, row, chosen.value, fate) else (s, false);
    if away then s' else StayStep(env, s', row, verdict, chosen.Some?, fate)
  }

  /** What happens before a job's turn: reports arrive, and the job may be withdrawn. */
  function Meanwhile(s: State, row: Row, fate: Fate): State {
    var s' := s.(away := s.away.(reports := s.away.reports + fate.polled));
    if fate.withdrawn then Withdrawn(s', row.id) else s'
  }

  /** One queued job's turn. */
  function Step(env: TickEnv, s: State, row: Row, later: seq<Row>, fate: Fate): State {
    var s' := Meanwhile(s, row, fate);
    if row.pinned.Some? then PinnedStep(env, s', row, fate)
    else if s'.closed then ElsewhereStep(env, s', row, later, fate)
    else FreeStep(env, s', row, later, fate)
  }

  /** The queue as the tick reads it: queued rows in order, less those asked to cancel. */
  function Dispatchable(rows: seq<Row>): seq<Row> {
    if rows == [] then []
    else (if rows[0].state == Queued && !rows[0].cancelRequested then [rows[0]] else []) + Dispatchable(rows[1..])
  }

  /** Jobs no longer waiting are forgotten first. */
  function Begin(w: World, clock: Clock, blocked: map<JobId, real>, away: Elsewhere): State {
    var live := Ids(Dispatchable(w.rows));
    State(w, w.InFlight(), None, None, 0, [], false, Pruned(clock, live), blocked,
          away.(failures := LiveFailures(away.failures, live)))
  }

  /** The state after the first `k` jobs of `queue` have had their turn. */
  function Walk(env: TickEnv, s: State, queue: seq<Row>, fates: seq<Fate>, k: nat): State
    requires k <= |queue| == |fates|
  {
    if k == 0 then s
    else Step(env, Walk(env, s, queue, fates, k - 1), queue[k - 1], queue[k..], fates[k - 1])
  }
}
