/** What holds over a whole tick, whatever the queue, the machine and the fates of its jobs. */
module TickTheorems {
  import opened Wrappers
  import opened Resources
  import opened QueueRows
  import opened Devices
  import opened World
  import opened Hold
  import opened Scan
  import opened StepEffects

  // ---- the walk keeps the books ------------------------------------------

  /** The queue as read at the start of a tick: waiting rows of the table, each once. */
  ghost predicate Listing(w: World, queue: seq<Row>) {
    && (forall i :: 0 <= i < |queue| ==> queue[i].state == Queued && Find(w.rows, queue[i].id) == Some(queue[i]))
    && (forall i, j :: 0 <= i < j < |queue| ==> queue[i].id != queue[j].id)
  }

  ghost predicate WalkStart(s: State, queue: seq<Row>, fates: seq<Fate>) {
    && Consistent(s.w) && s.inFlight == s.w.InFlight()
    && s.head.None? && s.held.None? && Listing(s.w, queue) && |fates| == |queue|
  }

  lemma {:induction false} TurnKeepsReading(env: TickEnv, s: State, s': State, row: Row, rest: seq<Row>)
    requires Turn(env, s, s', row)
    requires forall j :: 0 <= j < |rest| ==>
      rest[j].state == Queued && rest[j].id != row.id && Find(s.w.rows, rest[j].id) == Some(rest[j])
    ensures forall j :: 0 <= j < |rest| ==> Find(s'.w.rows, rest[j].id) == Some(rest[j])
  {
    forall j | 0 <= j < |rest| ensures Find(s'.w.rows, rest[j].id) == Some(rest[j]) {
      assert Kept(s.w, s'.w, rest[j].id);
    }
  }

  /** Before the turn of `row`, with `rest` still to come. */
  ghost predicate Ready(t: State, rest: seq<Row>) {
    && Consistent(t.w)
    && (t.held.Some? ==> t.head.Some?)
    && (forall j :: 0 <= j < |rest| ==> rest[j].state == Queued && Find(t.w.rows, rest[j].id) == Some(rest[j]))
    && (forall i, j :: 0 <= i < j < |rest| ==> rest[i].id != rest[j].id)
  }

  lemma {:induction false} StepTurns(env: TickEnv, s: State, rest: seq<Row>, fate: Fate)
    requires Ready(s, rest) && rest != []
    ensures Turn(env, s, Step(env, s, rest[0], rest[1..], fate), rest[0])
  {
    StepEffect(env, s, rest[0], rest[1..], fate);
  }

  lemma {:induction false} TurnStaysReady(env: TickEnv, s: State, s': State, rest: seq<Row>)
    requires Ready(s, rest) && rest != [] && Turn(env, s, s', rest[0])
    ensures Ready(s', rest[1..])
  {
    TurnKeepsReading(env, s, s', rest[0], rest[1..]);
  }

  lemma {:induction false} WalkTurns(env: TickEnv, s: State, queue: seq<Row>, fates: seq<Fate>, k: nat)
    requires k < |queue| == |fates| && Ready(Walk(env, s, queue, fates, k), queue[k..])
    ensures Turn(env, Walk(env, s, queue, fates, k), Walk(env, s, queue, fates, k + 1), queue[k])
  {
    var rest := queue[k..];
    assert rest[0] == queue[k] && rest[1..] == queue[k + 1..];
    StepTurns(env, Walk(env, s, queue, fates, k), rest, fates[k]);
  }

  lemma {:induction false} NextIsReady(env: TickEnv, s: State, s': State, queue: seq<Row>, k: nat)
    requires k < |queue| && Ready(s, queue[k..]) && Turn(env, s, s', queue[k])
    ensures Ready(s', queue[k + 1..])
  {
    assert queue[k..][0] == queue[k] && queue[k..][1..] == queue[k + 1..];
    TurnStaysReady(env, s, s', queue[k..]);
  }

  lemma {:induction false} WalkStaysReady(env: TickEnv, s: State, queue: seq<Row>, fates: seq<Fate>, k: nat)
    requires WalkStart(s, queue, fates) && k <= |queue|
    ensures Ready(Walk(env, s, queue, fates, k), queue[k..])
  {
    if k > 0 {
      WalkStaysReady(env, s, queue, fates, k - 1);
      WalkTurns(env, s, queue, fates, k - 1);
      NextIsReady(env, Walk(env, s, queue, fates, k - 1), Walk(env, s, queue, fates, k), queue, k - 1);
    }
  }

  /** The states a tick goes through. */
  function States(env: TickEnv, s: State, queue: seq<Row>, fates: seq<Fate>): (ts: seq<State>)
    requires |fates| == |queue|
    ensures |ts| == |queue| + 1
    ensures forall k :: 0 <= k < |ts| ==> ts[k] == Walk(env, s, queue, fates, k)
  {
    seq(|queue| + 1, k requires 0 <= k <= |queue| => Walk(env, s, queue, fates, k))
  }

  /** A run of turns, one per queued job. The theorems below are about every such run. */
  ghost predicate Turns(env: TickEnv, ts: seq<State>, queue: seq<Row>) {
    && |ts| == |queue| + 1
    && forall k :: 0 <= k < |queue| ==> TurnAt(env, ts, queue, k)
  }

  ghost predicate TurnAt(env: TickEnv, ts: seq<State>, queue: seq<Row>, k: nat)
    requires k < |queue| && |ts| == |queue| + 1
  {
    Turn(env, ts[k], ts[k + 1], queue[k])
  }

  /** Every tick is such a run. */
  lemma {:induction false} WalkIsARunOfTurns(env: TickEnv, s: State, queue: seq<Row>, fates: seq<Fate>)
    requires WalkStart(s, queue, fates)
    ensures Turns(env, States(env, s, queue, fates), queue)
  {
    var ts := States(env, s, queue, fates);
    forall k | 0 <= k < |queue| ensures TurnAt(env, ts, queue, k) {
      WalkStaysReady(env, s, queue, fates, k);
      WalkTurns(env, s, queue, fates, k);
    }
  }

  // ---- occupancy ---------------------------------------------------------

  lemma {:induction false} SameTermsSameOccupancy(w: World, w': World, jobs: seq<RunningJob>, device: int)
    requires forall id :: id in JobIds(jobs) ==> SameTerms(w, w', id)
    ensures OccupancyOf(w'.rows, jobs, device) == OccupancyOf(w.rows, jobs, device)
  {
    if jobs != [] {
      var n := |jobs| - 1;
      JobIdsAppend(jobs[..n], jobs[n]);
      assert jobs == jobs[..n] + [jobs[n]];
      SameTermsSameOccupancy(w, w', jobs[..n], device);
    }
  }

  /** After a launch the occupancy of a device it was given gains that job; other devices are as before. */
  lemma {:induction false} LaunchOccupies(env: TickEnv, s: State, s': State, row: Row, device: int)
    requires Launched(env, s, s', row)
    ensures var devices := Judge(env, s, row).devices;
      OccupancyOf(s'.w.rows, s'.w.running, device)
      == if device in devices
         then Joined(OccupancyOf(s.w.rows, s.w.running, device), row.mode, DeclaredVram(row))
         else OccupancyOf(s.w.rows, s.w.running, device)
  {
    SameTermsSameOccupancy(s.w, s'.w, s.w.running, device);
    assert s'.w.running[..|s.w.running|] == s.w.running;
  }

  // ---- a tick only ever gets tighter -------------------------------------

  ghost predicate NoFreer(a: Occupancy, b: Occupancy) {
    a.jobs <= b.jobs && a.vram <= b.vram && (a.exclusive ==> b.exclusive)
  }

  ghost predicate Tightened(env: TickEnv, s: State, t: State, device: GpuDevice) {
    var a, b := OccupancyOf(s.w.rows, s.w.running, device.index), OccupancyOf(t.w.rows, t.w.running, device.index);
    NoFreer(a, b) && (a.jobs == 0 && b.jobs > 0 ==> FreeEnough(device, env.Policy()))
  }

  /** Nothing a later job could use has been given back: slots, ledger, devices, and any hold. */
  ghost predicate Tighter(env: TickEnv, s: State, t: State) {
    && s.inFlight <= t.inFlight
    && Within(Ledger(env.cfg, s.w), Ledger(env.cfg, t.w))
    && InUse(s.w.running) <= InUse(t.w.running)
    && (s.held.Some? ==> t.held == s.held)
    && (env.node.GpuUsable() ==> forall d :: d in env.node.gpu.value.devices ==> Tightened(env, s, t, d))
  }

  lemma {:induction false} TighterTwice(env: TickEnv, s: State, t: State, u: State)
    requires Tighter(env, s, t) && Tighter(env, t, u)
    ensures Tighter(env, s, u)
  {
    if env.node.GpuUsable() {
      forall d | d in env.node.gpu.value.devices ensures Tightened(env, s, u, d) {
        assert Tightened(env, s, t, d) && Tightened(env, t, u, d);
      }
    }
  }

  lemma {:induction false} TurnTightens(env: TickEnv, s: State, s': State, row: Row)
    requires Turn(env, s, s', row)
    requires env.node.GpuUsable() ==> DistinctIndices(env.node.gpu.value.devices)
    ensures Tighter(env, s, s')
  {
    if s'.inFlight == s.inFlight {
      forall d: GpuDevice ensures Tightened(env, s, s', d) {
        SameTermsSameOccupancy(s.w, s'.w, s.w.running, d.index);
      }
    } else {
      assert s'.w.running[..|s.w.running|] == s.w.running;
      if env.node.GpuUsable() {
        var gpu := env.node.gpu.value;
        var got := Judge(env, s, row).devices;
        forall d | d in gpu.devices ensures Tightened(env, s, s', d) {
          LaunchOccupies(env, s, s', row, d.index);
          if d.index in got {
            AllocationIsSound(s.w.rows, s.w.running, gpu, row.gpus, row.mode, DeclaredVram(row), env.Policy());
            RatedDeviceIsThisOne(env, s, row, d);
          }
        }
      }
    }
  }

  /** With distinct indices, an index that rates means that device rates. */
  lemma {:induction false} RatedDeviceIsThisOne(env: TickEnv, s: State, row: Row, d: GpuDevice)
    requires env.node.GpuUsable() && d in env.node.gpu.value.devices && DistinctIndices(env.node.gpu.value.devices)
    requires var devices := env.node.gpu.value.devices;
      MayUse(s.w.rows, s.w.running, devices, d.index, row.mode, DeclaredVram(row), env.Policy())
    ensures Rate(d, OccupancyOf(s.w.rows, s.w.running, d.index), row.mode, DeclaredVram(row), env.Policy()).Some?
  {
    var devices := env.node.gpu.value.devices;
    var e :| e in devices && e.index == d.index
      && Rate(e, OccupancyOf(s.w.rows, s.w.running, d.index), row.mode, DeclaredVram(row), env.Policy()).Some?;
    var i :| 0 <= i < |devices| && devices[i] == d;
    var j :| 0 <= j < |devices| && devices[j] == e;
    assert i == j;
  }

  lemma {:induction false} TurnsTighten(env: TickEnv, ts: seq<State>, queue: seq<Row>, i: nat, j: nat)
    requires Turns(env, ts, queue) && i <= j <= |queue|
    requires env.node.GpuUsable() ==> DistinctIndices(env.node.gpu.value.devices)
    ensures Tighter(env, ts[i], ts[j])
  {
    if i < j {
      TurnsTighten(env, ts, queue, i, j - 1);
      assert TurnAt(env, ts, queue, j - 1);
      OneMoreTurnTightens(env, ts[i], ts[j - 1], ts[j], queue[j - 1]);
    } else {
      StillAsTight(env, ts[i]);
    }
  }

  lemma {:induction false} StillAsTight(env: TickEnv, s: State)
    ensures Tighter(env, s, s)
  {
  }

  lemma {:induction false} OneMoreTurnTightens(env: TickEnv, s: State, t: State, t': State, row: Row)
    requires Tighter(env, s, t) && Turn(env, t, t', row)
    requires env.node.GpuUsable() ==> DistinctIndices(env.node.gpu.value.devices)
    ensures Tighter(env, s, t')
  {
    TurnTightens(env, t, t', row);
    TighterTwice(env, s, t, t');
  }

  // ---- refusal dominance -------------------------------------------------

  /** The one gap in the shortcut: the earlier job asked to share but declared no VRAM, so it could
      join nobody, while the later one declared some and can. */
  predicate SharesWhereEarlierCould(earlier: Row, later: Row) {
    earlier.gpus > 0 && earlier.mode == Shared && DeclaredVram(earlier) == 0.0
    && later.mode == Shared && DeclaredVram(later) > 0.0
  }

  lemma {:induction false} CandidatesShrink(
      env: TickEnv, s: State, t: State, devices: seq<GpuDevice>, earlier: Row, later: Row)
    requires forall d :: d in devices ==> Tightened(env, s, t, d)
    requires AsksAtLeast(AskOf(env, later), AskOf(env, earlier)) && earlier.gpus > 0
    requires !SharesWhereEarlierCould(earlier, later)
    ensures |Candidates(t.w.rows, t.w.running, devices, later.mode, DeclaredVram(later), env.Policy())|
         <= |Candidates(s.w.rows, s.w.running, devices, earlier.mode, DeclaredVram(earlier), env.Policy())|
  {
    if devices != [] {
      var n := |devices| - 1;
      CandidatesShrink(env, s, t, devices[..n], earlier, later);
      assert Tightened(env, s, t, devices[n]);
    }
  }

  lemma {:induction false} AllocationGetsHarder(env: TickEnv, s: State, t: State, earlier: Row, later: Row)
    requires Tighter(env, s, t) && AllocateFor(env, s.w, earlier).None?
    requires AsksAtLeast(AskOf(env, later), AskOf(env, earlier)) && !SharesWhereEarlierCould(earlier, later)
    ensures AllocateFor(env, t.w, later).None?
  {
    CandidatesShrink(env, s, t, env.node.gpu.value.devices, earlier, later);
  }

  lemma {:induction false} AxisGetsHarder(
      env: TickEnv, s: State, t: State, earlier: Row, later: Row, held: Row, axis: Axis)
    requires Tighter(env, s, t) && Conflicts(env, s.w, s.inFlight, earlier, held, axis)
    requires Within(RequestFor(env.cfg, earlier), RequestFor(env.cfg, later))
    ensures Conflicts(env, t.w, t.inFlight, later, held, axis)
  {
    SmallerSet(InUse(s.w.running), InUse(t.w.running));
  }

  lemma {:induction false} HoldGetsHarder(env: TickEnv, s: State, t: State, earlier: Row, later: Row, held: Row)
    requires Tighter(env, s, t) && HoldConflict(env, s.w, s.inFlight, earlier, held).Some?
    requires Within(RequestFor(env.cfg, earlier), RequestFor(env.cfg, later))
    ensures HoldConflict(env, t.w, t.inFlight, later, held).Some?
  {
    AxisGetsHarder(env, s, t, earlier, later, held, HoldConflict(env, s.w, s.inFlight, earlier, held).value);
  }

  /** A refusal carries to every later job that asks for at least as much, through any starts in
      between: it fails the same test, or an earlier one. */
  lemma {:induction false} RefusalCarries(env: TickEnv, s: State, t: State, earlier: Row, later: Row)
    requires Tighter(env, s, t) && Judge(env, s, earlier).NotHere?
    requires AsksAtLeast(AskOf(env, later), AskOf(env, earlier)) && !SharesWhereEarlierCould(earlier, later)
    ensures Judge(env, t, later).NotHere?
  {
    match Judge(env, s, earlier).why
    case SlotsFull =>
    case NotAdmitted(_) =>
      AdmitOnlyGetsHarder(env.cfg, RequestFor(env.cfg, earlier), RequestFor(env.cfg, later),
                          RunningRequests(env.cfg, s.w), RunningRequests(env.cfg, t.w), env.node);
    case NoDevices => AllocationGetsHarder(env, s, t, earlier, later);
    case HeldBack(_) => HoldGetsHarder(env, s, t, earlier, later, s.held.value);
  }

  /** The dominance shortcut over a tick: a job that cannot start when its turn comes speaks for every
      later job asking for at least as much. Leaving those out of the look-ahead count hides nothing. */
  lemma {:induction false} DominatedJobsCannotStart(env: TickEnv, ts: seq<State>, queue: seq<Row>, i: nat, j: nat)
    requires Turns(env, ts, queue) && i <= j < |queue|
    requires env.node.GpuUsable() ==> DistinctIndices(env.node.gpu.value.devices)
    requires Judge(env, ts[i], queue[i]).NotHere?
    requires AsksAtLeast(AskOf(env, queue[j]), AskOf(env, queue[i]))
    requires !SharesWhereEarlierCould(queue[i], queue[j])
    ensures Judge(env, ts[j], queue[j]).NotHere?
  {
    TurnsTighten(env, ts, queue, i, j);
    RefusalCarries(env, ts[i], ts[j], queue[i], queue[j]);
  }

  /** A tick leaves no opportunity behind: a job refused at its turn would still be refused if it were
      looked at again after every later job has had its own turn. */
  lemma {:induction false} RefusedStaysRefused(env: TickEnv, ts: seq<State>, queue: seq<Row>, i: nat)
    requires Turns(env, ts, queue) && i < |queue|
    requires env.node.GpuUsable() ==> DistinctIndices(env.node.gpu.value.devices)
    requires Judge(env, ts[i], queue[i]).NotHere?
    ensures Judge(env, ts[|queue|], queue[i]).NotHere?
  {
    TurnsTighten(env, ts, queue, i, |queue|);
    RefusalCarries(env, ts[i], ts[|queue|], queue[i], queue[i]);
  }

  // ---- the hold protects its head ----------------------------------------

  /** What is left afterwards is exactly what there was, or still all that is needed. */
  predicate Covered(before: Option<real>, after: Option<real>, need: real) {
    after == before || (after.Some? && after.value >= need)
  }

  ghost predicate Protected(env: TickEnv, s: State, t: State, head: Row, axis: Axis) {
    var need := Demand(RequestFor(env.cfg, head), axis);
    need > 0.0 ==> Covered(LocalSpare(env, s.w, s.inFlight, axis), LocalSpare(env, t.w, t.inFlight, axis), need)
  }

  lemma {:induction false} GivenDevicesBoundUse(jobs: seq<RunningJob>, job: RunningJob)
    ensures |InUse(jobs + [job])| <= |InUse(jobs)| + |job.devices|
  {
    assert (jobs + [job])[..|jobs|] == jobs;
    SetOfListIsSmall(job.devices);
    var added := AsSet(job.devices) - InUse(jobs);
    SmallerSet(added, AsSet(job.devices));
    assert InUse(jobs + [job]) == InUse(jobs) + added;
  }

  lemma {:induction false} SetOfListIsSmall(xs: seq<int>)
    ensures |AsSet(xs)| <= |xs|
  {
    if xs != [] {
      SetOfListIsSmall(xs[1..]);
      assert AsSet(xs) == {xs[0]} + AsSet(xs[1..]);
    }
  }

  lemma {:induction false} LaunchGives(env: TickEnv, s: State, s': State, row: Row) returns (devices: seq<int>)
    requires Launched(env, s, s', row) && env.node.GpuUsable()
    ensures s'.w.running == s.w.running + [RunningJob(row.id, devices)] && |devices| == row.gpus
  {
    devices := Judge(env, s, row).devices;
  }

  lemma {:induction false} NothingGiven(jobs: seq<RunningJob>, job: RunningJob)
    requires job.devices == []
    ensures InUse(jobs + [job]) == InUse(jobs)
  {
    assert (jobs + [job])[..|jobs|] == jobs;
  }

  lemma {:induction false} LaunchTakesDevices(env: TickEnv, s: State, s': State, row: Row)
    requires Launched(env, s, s', row) && env.node.GpuUsable()
    ensures |InUse(s'.w.running)| <= |InUse(s.w.running)| + row.gpus
    ensures row.gpus == 0 ==> InUse(s'.w.running) == InUse(s.w.running)
  {
    var devices := LaunchGives(env, s, s', row);
    GivenDevicesBoundUse(s.w.running, RunningJob(row.id, devices));
    if row.gpus == 0 {
      NothingGiven(s.w.running, RunningJob(row.id, devices));
    }
  }

  ghost predicate Takes(before: Option<real>, after: Option<real>, take: real) {
    && (before.Some? <==> after.Some?)
    && (before.Some? ==> after.value >= before.value - take)
    && (take == 0.0 ==> after == before)
  }

  lemma {:induction false} LaunchTakesGpus(env: TickEnv, s: State, s': State, row: Row)
    requires Launched(env, s, s', row) && env.node.GpuUsable()
    ensures Takes(LocalSpare(env, s.w, s.inFlight, Gpu), LocalSpare(env, s'.w, s'.inFlight, Gpu), row.gpus as real)
  {
    LaunchTakesDevices(env, s, s', row);
  }

  /** A launch takes from each axis at most what the job asks for there, and nothing where it asks for nothing. */
  lemma {:induction false} LaunchTakesItsDemand(env: TickEnv, s: State, s': State, row: Row, axis: Axis)
    requires Launched(env, s, s', row)
    ensures Takes(LocalSpare(env, s.w, s.inFlight, axis), LocalSpare(env, s'.w, s'.inFlight, axis),
                  Demand(RequestFor(env.cfg, row), axis))
  {
    if axis == Gpu && env.node.GpuUsable() {
      LaunchTakesGpus(env, s, s', row);
    } else {
      LedgerMeansSpare(env, s.w, s.inFlight, s'.w, s'.inFlight, RequestFor(env.cfg, row), axis);
    }
  }

  lemma {:induction false} LedgerMeansSpare(
      env: TickEnv, w: World, inFlight: nat, w': World, inFlight': nat, request: ResourceRequest, axis: Axis)
    requires Ledger(env.cfg, w') == Plus(request, Ledger(env.cfg, w)) && inFlight' == inFlight + 1
    requires axis != Gpu || !env.node.GpuUsable()
    ensures Takes(LocalSpare(env, w, inFlight, axis), LocalSpare(env, w', inFlight', axis), Demand(request, axis))
  {
  }

  /** What a hold lets start leaves its head what it needs. */
  lemma {:induction false} NoConflictLeavesEnough(
      env: TickEnv, w: World, inFlight: nat, row: Row, head: Row, axis: Axis, after: Option<real>)
    requires HoldConflict(env, w, inFlight, row, head).None? && Demand(RequestFor(env.cfg, head), axis) > 0.0
    requires Takes(LocalSpare(env, w, inFlight, axis), after, Demand(RequestFor(env.cfg, row), axis))
    ensures Covered(LocalSpare(env, w, inFlight, axis), after, Demand(RequestFor(env.cfg, head), axis))
  {
    assert !Conflicts(env, w, inFlight, row, head, axis);
  }

  lemma {:induction false} QuietKeepsSpare(env: TickEnv, w: World, w': World, inFlight: nat, axis: Axis)
    requires Quiet(env.cfg, w, w')
    ensures LocalSpare(env, w', inFlight, axis) == LocalSpare(env, w, inFlight, axis)
  {
  }

  lemma {:induction false} TurnCovers(env: TickEnv, s: State, s': State, row: Row, head: Row, axis: Axis)
    requires Turn(env, s, s', row) && s.held == Some(head)
    ensures Protected(env, s, s', head, axis)
  {
    if s'.inFlight == s.inFlight {
      QuietKeepsSpare(env, s.w, s'.w, s.inFlight, axis);
    } else if Demand(RequestFor(env.cfg, head), axis) > 0.0 {
      LaunchTakesItsDemand(env, s, s', row, axis);
      NoConflictLeavesEnough(env, s.w, s.inFlight, row, head, axis, LocalSpare(env, s'.w, s'.inFlight, axis));
    }
  }

  lemma {:induction false} ProtectedTwice(env: TickEnv, s: State, t: State, u: State, head: Row, axis: Axis)
    requires Protected(env, s, t, head, axis) && Protected(env, t, u, head, axis)
    ensures Protected(env, s, u, head, axis)
  {
  }

  lemma {:induction false} ProtectedAtFirst(env: TickEnv, s: State, head: Row, axis: Axis)
    ensures Protected(env, s, s, head, axis)
  {
  }

  lemma {:induction false} TurnStaysProtected(
      env: TickEnv, s: State, t: State, u: State, row: Row, head: Row, axis: Axis)
    requires Protected(env, s, t, head, axis) && t.held == Some(head) && Turn(env, t, u, row)
    ensures Protected(env, s, u, head, axis) && u.held == Some(head)
  {
    TurnCovers(env, t, u, row, head, axis);
    ProtectedTwice(env, s, t, u, head, axis);
  }

  /** Hold non-interference over a tick. Once the queue is held for a head, then on every axis the head
      needs, whatever starts afterwards, the spare either still covers the head's whole need or is
      exactly what it was when the hold began. */
  lemma {:induction false} HoldNeverHurtsItsHead(
      env: TickEnv, ts: seq<State>, queue: seq<Row>, i: nat, j: nat, head: Row, axis: Axis)
    requires Turns(env, ts, queue) && i <= j <= |queue|
    requires ts[i].held == Some(head)
    ensures Protected(env, ts[i], ts[j], head, axis)
    ensures ts[j].held == Some(head)
  {
    if i < j {
      HoldNeverHurtsItsHead(env, ts, queue, i, j - 1, head, axis);
      assert TurnAt(env, ts, queue, j - 1);
      TurnStaysProtected(env, ts[i], ts[j - 1], ts[j], queue[j - 1], head, axis);
    } else {
      ProtectedAtFirst(env, ts[i], head, axis);
    }
  }

  // ---- ledger and slots --------------------------------------------------

  /** Ledger and slot safety of a tick: with admission enforced, reserved RAM, CPU and VRAM end at most
      where they began or at what is usable, and jobs in flight at most where they began or at the slots. */
  lemma {:induction false} TickStaysInLedger(env: TickEnv, ts: seq<State>, queue: seq<Row>, k: nat)
    requires env.cfg.enforce && Turns(env, ts, queue) && k <= |queue|
    ensures LedgerGrowth(Ledger(env.cfg, ts[0].w), Ledger(env.cfg, ts[k].w), env.node)
    ensures ts[k].inFlight <= ts[0].inFlight || ts[k].inFlight <= env.slots
  {
    if k > 0 {
      TickStaysInLedger(env, ts, queue, k - 1);
      assert TurnAt(env, ts, queue, k - 1);
      TurnStaysInLedger(env, ts[k - 1], ts[k], queue[k - 1]);
    }
  }

  lemma {:induction false} TurnStaysInLedger(env: TickEnv, s: State, s': State, row: Row)
    requires env.cfg.enforce && Turn(env, s, s', row)
    ensures LedgerGrowth(Ledger(env.cfg, s.w), Ledger(env.cfg, s'.w), env.node)
    ensures s'.inFlight == s.inFlight || s'.inFlight <= env.slots
  {
    if s'.inFlight != s.inFlight {
      LaunchStaysInLedger(env, s, s', row);
    }
  }

  lemma {:induction false} LaunchStaysInLedger(env: TickEnv, s: State, s': State, row: Row)
    requires env.cfg.enforce && Launched(env, s, s', row)
    ensures LedgerGrowth(Ledger(env.cfg, s.w), Ledger(env.cfg, s'.w), env.node)
  {
    var request := RequestFor(env.cfg, row);
    var running := RunningRequests(env.cfg, s.w);
    AdmittedStaysInLedger(env.cfg, request, running, env.node);
    SumAppendOne(running, request);
    PlusLaws(request, Ledger(env.cfg, s.w), Nothing());
  }

  // ---- devices -----------------------------------------------------------

  /** One device is safe: a single occupant, or occupants who all agreed to share and whose declared
      VRAM fits the device less the reserve. */
  ghost predicate DeviceSafe(occ: Occupancy, budget: real) {
    occ.jobs <= 1 || (!occ.exclusive && occ.vram <= budget)
  }

  /** `totals` is the size of every device there is; a listing may show only some of them, or less. */
  ghost predicate DevicesSafe(w: World, totals: map<int, Mib>, reserveVram: real) {
    forall d :: DeviceSafe(OccupancyOf(w.rows, w.running, d), Budget(totals, reserveVram, d))
  }

  /** What jobs sharing a device may declare between them. */
  function Budget(totals: map<int, Mib>, reserveVram: real, d: int): real {
    Max(0.0, (if d in totals then totals[d] else 0.0) - reserveVram)
  }

  ghost predicate Inventory(env: TickEnv, totals: map<int, Mib>) {
    env.node.GpuUsable() ==>
      && DistinctIndices(env.node.gpu.value.devices)
      && forall d :: d in env.node.gpu.value.devices ==>
           d.total.GetOr<Mib>(0.0) <= if d.index in totals then totals[d.index] else 0.0
  }

  lemma {:induction false} LaunchKeepsDeviceSafe(
      env: TickEnv, s: State, s': State, row: Row, d: int, totals: map<int, Mib>, reserveVram: real)
    requires Launched(env, s, s', row) && Inventory(env, totals) && reserveVram <= env.node.reserve.vram
    requires DeviceSafe(OccupancyOf(s.w.rows, s.w.running, d), Budget(totals, reserveVram, d))
    ensures DeviceSafe(OccupancyOf(s'.w.rows, s'.w.running, d), Budget(totals, reserveVram, d))
  {
    LaunchOccupies(env, s, s', row, d);
    if d in Judge(env, s, row).devices {
      var gpu := env.node.gpu.value;
      AllocationIsSound(s.w.rows, s.w.running, gpu, row.gpus, row.mode, DeclaredVram(row), env.Policy());
      var device :| device in gpu.devices && device.index == d
        && Rate(device, OccupancyOf(s.w.rows, s.w.running, d), row.mode, DeclaredVram(row), env.Policy()).Some?;
    }
  }

  lemma {:induction false} TurnKeepsDevicesSafe(
      env: TickEnv, s: State, s': State, row: Row, totals: map<int, Mib>, reserveVram: real)
    requires Turn(env, s, s', row) && Inventory(env, totals) && reserveVram <= env.node.reserve.vram
    requires DevicesSafe(s.w, totals, reserveVram)
    ensures DevicesSafe(s'.w, totals, reserveVram)
  {
    forall d ensures DeviceSafe(OccupancyOf(s'.w.rows, s'.w.running, d), Budget(totals, reserveVram, d)) {
      assert DeviceSafe(OccupancyOf(s.w.rows, s.w.running, d), Budget(totals, reserveVram, d));
      if s'.inFlight == s.inFlight {
        SameTermsSameOccupancy(s.w, s'.w, s.w.running, d);
      } else {
        LaunchKeepsDeviceSafe(env, s, s', row, d, totals, reserveVram);
      }
    }
  }

  /** Device safety of a tick. */
  lemma {:induction false} TickKeepsDevicesSafe(
      env: TickEnv, ts: seq<State>, queue: seq<Row>, k: nat, totals: map<int, Mib>, reserveVram: real)
    requires Turns(env, ts, queue) && k <= |queue|
    requires Inventory(env, totals) && reserveVram <= env.node.reserve.vram
    requires DevicesSafe(ts[0].w, totals, reserveVram)
    ensures DevicesSafe(ts[k].w, totals, reserveVram)
  {
    if k > 0 {
      TickKeepsDevicesSafe(env, ts, queue, k - 1, totals, reserveVram);
      assert TurnAt(env, ts, queue, k - 1);
      TurnKeepsDevicesSafe(env, ts[k - 1], ts[k], queue[k - 1], totals, reserveVram);
    }
  }
}
