/** Who may be asked to stop, in the columns of the row, the readings of the clock and the settings of the policy;
    and over whole runs, that only jobs which opted in are. */
module Entitlement {
  import opened Wrappers
  import opened Resources
  import opened AdmissionRule
  import opened QueueRows
  import opened World
  import opened Scan
  import opened StepEffects
  import opened Upkeep
  import opened Pressure
  import opened Preemption
  import opened Runs
  import Devices

  // ---- one question ------------------------------------------------------

  /** Launched by this dispatcher, or adopted by it. */
  ghost predicate FollowedHere(w: World, id: JobId) {
    (exists k :: 0 <= k < |w.running| && w.running[k].id == id)
    || exists k :: 0 <= k < |w.adopted| && w.adopted[k].id == id
  }

  lemma {:induction false} LaunchedAreListed(jobs: seq<Devices.RunningJob>, id: JobId)
    ensures id in Devices.JobIds(jobs) <==> exists k :: 0 <= k < |jobs| && jobs[k].id == id
  {
    if jobs != [] {
      LaunchedAreListed(jobs[1..], id);
      if k :| 0 <= k < |jobs[1..]| && jobs[1..][k].id == id {
        assert jobs[k + 1].id == id;
      }
      forall k | 0 < k < |jobs| && jobs[k].id == id ensures id in Devices.JobIds(jobs[1..]) {
        assert jobs[1..][k - 1].id == id;
      }
    }
  }

  lemma {:induction false} AdoptedAreListed(jobs: seq<AdoptedJob>, id: JobId)
    ensures id in AdoptedIds(jobs) <==> exists k :: 0 <= k < |jobs| && jobs[k].id == id
  {
    if jobs != [] {
      AdoptedAreListed(jobs[1..], id);
      if k :| 0 <= k < |jobs[1..]| && jobs[1..][k].id == id {
        assert jobs[k + 1].id == id;
      }
      forall k | 0 < k < |jobs| && jobs[k].id == id ensures id in AdoptedIds(jobs[1..]) {
        assert jobs[1..][k - 1].id == id;
      }
    }
  }

  /** The active jobs are those launched here and those adopted, and no others. */
  lemma {:induction false} ActiveAreFollowed(w: World, id: JobId)
    ensures id in w.Active() <==> FollowedHere(w, id)
  {
    LaunchedAreListed(w.running, id);
    AdoptedAreListed(w.adopted, id);
  }

  /** The rank compared: a rank of zero, the highest there is, counts as 100. */
  predicate Outranks(waiter: Row, row: Row) {
    if waiter.rank == 0 then row.rank > 100
    else if row.rank == 0 then waiter.rank < 100
    else waiter.rank < row.rank
  }

  /** A row that was never stamped, or was stamped in the future, has run for no time. */
  predicate RanAtLeast(now: real, row: Row, least: real) {
    least <= 0.0 || (row.startedAt.Some? && row.startedAt.value + least <= now)
  }

  ghost predicate MayBeStopped(env: TickEnv, w: World, waiter: Row, row: Row) {
    && row in w.rows && row.state == Running && FollowedHere(w, row.id)
    && !row.preemptRequested
    && (env.preemption.requireOptIn ==> row.preemptible)
    && RanAtLeast(env.now, row, env.preemption.minRuntime)
    && Outranks(waiter, row)
  }

  lemma {:induction false} DisplaceableMeans(env: TickEnv, w: World, waiter: Row, row: Row)
    ensures row in w.rows && Displaceable(env, w, waiter, row) <==> MayBeStopped(env, w, waiter, row)
  {
    ActiveAreFollowed(w, row.id);
  }

  /** The candidates are exactly the rows that may be stopped, while preemption is on. */
  lemma {:induction false} CandidatesAreThoseWhoMayBeStopped(env: TickEnv, w: World, waiter: Row, row: Row)
    ensures row in Candidates(env, w, waiter)
      <==> env.preemption.enabled && MayBeStopped(env, w, waiter, row)
  {
    EligibleFacts(env, w, waiter, w.rows);
    ByCostFacts(env, Eligible(env, w, waiter, w.rows));
    DisplaceableMeans(env, w, waiter, row);
  }

  /** Of two rows the lower in priority is stopped first, and of equals the one that was started earlier. */
  predicate StoppedBefore(now: real, a: Row, b: Row) {
    || Outranks(b, a)
    || (!Outranks(a, b) && a.startedAt.Some? && a.startedAt.value < now
        && (b.startedAt.Some? ==> a.startedAt.value < b.startedAt.value))
  }

  lemma {:induction false} CandidatesAreInOrder(env: TickEnv, w: World, waiter: Row)
    ensures var cs := Candidates(env, w, waiter);
      forall i, j :: 0 <= i < j < |cs| ==> !StoppedBefore(env.now, cs[j], cs[i])
  {
    ByCostFacts(env, Eligible(env, w, waiter, w.rows));
    var cs := Candidates(env, w, waiter);
    forall i, j | 0 <= i < j < |cs| ensures !StoppedBefore(env.now, cs[j], cs[i]) {
      assert !GoesFirst(env, cs[j], cs[i]);
    }
  }

  /** Preemption stops nobody it may not, and nobody before one that comes first. */
  lemma {:induction false} VictimsMayBeStopped(env: TickEnv, w: World, waiter: Row, victim: Row)
    requires victim in Victims(env, w, waiter)
    ensures env.preemption.enabled && MayBeStopped(env, w, waiter, victim)
    ensures forall other ::
      MayBeStopped(env, w, waiter, other) && StoppedBefore(env.now, other, victim)
      ==> other in Victims(env, w, waiter)
  {
    var cs, victims := Candidates(env, w, waiter), Victims(env, w, waiter);
    CandidatesAreThoseWhoMayBeStopped(env, w, waiter, victim);
    CandidatesAreInOrder(env, w, waiter);
    var i :| 0 <= i < |victims| && victims[i] == victim;
    forall other | MayBeStopped(env, w, waiter, other) && StoppedBefore(env.now, other, victim)
      ensures other in victims
    {
      CandidatesAreThoseWhoMayBeStopped(env, w, waiter, other);
      var j :| 0 <= j < |cs| && cs[j] == other;
      assert cs[i] == victim;
      assert j != i ==> j < i;
      assert j < |victims| ==> victims[j] == other;
    }
  }

  // ---- what stopping is asked to achieve ---------------------------------

  /** What the running rows ask for, here or elsewhere, less those stopped. */
  function Staying(cfg: Limits, rows: seq<Row>, gone: set<JobId>): seq<ResourceRequest> {
    if rows == [] then []
    else
      (if rows[0].state == Running && rows[0].id !in gone then [RequestFor(cfg, rows[0])] else [])
      + Staying(cfg, rows[1..], gone)
  }

  lemma {:induction false} StayingAreActive(cfg: Limits, rows: seq<Row>, gone: set<JobId>, active: set<JobId>)
    requires forall r :: r in rows && r.id !in gone ==> r.id in active
    requires active !! gone
    ensures ActiveRequests(cfg, rows, active) == Staying(cfg, rows, gone)
  {
    if rows != [] {
      assert rows[0] in rows;
      StayingAreActive(cfg, rows[1..], gone, active);
    }
  }

  /** Stopping these is enough when a slot then is free and, beside every other running row, what the waiter
      declared fits the machine. */
  lemma {:induction false} SufficesMeans(env: TickEnv, w: World, waiter: Row, gone: set<JobId>)
    ensures Suffices(env, w, waiter, gone) <==>
      (&& |w.running| + |w.adopted| - |gone| < env.slots
       && (env.cfg.enforce ==>
             Fits(env.cfg, RequestFor(env.cfg, waiter), Staying(env.cfg, w.rows, gone), env.node)))
  {
    forall r | r in w.rows && r.id !in gone ensures r.id in Ids(w.rows) - gone {
      MemberIsListed(w.rows, r);
    }
    StayingAreActive(env.cfg, w.rows, gone, Ids(w.rows) - gone);
    AdmittedExactlyWhenItFits(
      env.cfg, RequestFor(env.cfg, waiter), Staying(env.cfg, w.rows, gone), env.node);
  }

  // ---- who gets asked, turn by turn --------------------------------------

  /** A row that was there keeps its consent; its stop flag may be cleared, and is set only for cause. */
  ghost predicate AskedAt(was: seq<Row>, rows: seq<Row>, optIn: bool, id: JobId) {
    Find(rows, id).Some? ==>
      var row := Find(rows, id).value;
      && Find(was, id).Some? && row.preemptible == Find(was, id).value.preemptible
      && (row.preemptRequested ==> Find(was, id).value.preemptRequested || row.preemptible || !optIn)
  }

  ghost predicate AskedWithConsent(was: seq<Row>, rows: seq<Row>, optIn: bool) {
    forall id :: AskedAt(was, rows, optIn, id)
  }

  lemma {:induction false} AskedTwice(a: seq<Row>, b: seq<Row>, c: seq<Row>, optIn: bool)
    requires AskedWithConsent(a, b, optIn) && AskedWithConsent(b, c, optIn)
    ensures AskedWithConsent(a, c, optIn)
  {
    forall id ensures AskedAt(a, c, optIn, id) {
      assert AskedAt(a, b, optIn, id) && AskedAt(b, c, optIn, id);
    }
  }

  lemma {:induction false} RewritingAsksNobody(rows: seq<Row>, row: Row, optIn: bool)
    requires Find(rows, row.id).Some? && row.preemptible == Find(rows, row.id).value.preemptible
    requires row.preemptRequested ==> Find(rows, row.id).value.preemptRequested
    ensures AskedWithConsent(rows, Put(rows, row), optIn) && Find(Put(rows, row), row.id) == Some(row)
  {
    PutFacts(rows, row, row.id);
    forall id ensures AskedAt(rows, Put(rows, row), optIn, id) {
      PutFacts(rows, row, id);
    }
  }

  lemma {:induction false} MarkingAsks(
      rows: seq<Row>, victims: set<JobId>, asker: Option<JobId>, optIn: bool, id: JobId)
    requires optIn ==> forall r :: r in rows && r.id in victims ==> r.preemptible
    ensures AskedAt(rows, Marked(rows, victims, asker), optIn, id)
  {
    if rows != [] && rows[0].id != id {
      MarkingAsks(rows[1..], victims, asker, optIn, id);
    }
  }

  lemma {:induction false} MarkingFlags(rows: seq<Row>, victims: set<JobId>, asker: Option<JobId>, id: JobId)
    ensures var was, row := Find(rows, id), Find(Marked(rows, victims, asker), id);
      row == if was.Some? && id in victims && was.value.state == Running && !was.value.preemptRequested
             then Some(was.value.(preemptRequested := true, preemptBy := asker)) else was
  {
    if rows != [] && rows[0].id != id {
      MarkingFlags(rows[1..], victims, asker, id);
    }
  }

  /** Every victim is asked to stop, in the waiter's name, and no other row changes. */
  lemma {:induction false} ExactlyTheVictimsAreAsked(env: TickEnv, w: World, waiter: Row, row: Row)
    requires Distinct(w.rows) && row in w.rows
    ensures Find(Displaced(env, w, waiter).rows, row.id) == Some(
      if row in Victims(env, w, waiter) then row.(preemptRequested := true, preemptBy := Some(waiter.id)) else row)
  {
    var victims := Victims(env, w, waiter);
    ListedMeansFound(w.rows, row);
    MarkingFlags(w.rows, RowIds(victims), Some(waiter.id), row.id);
    if row.id in RowIds(victims) {
      var v :| v in victims && v.id == row.id;
      VictimsMayBeStopped(env, w, waiter, v);
      ListedMeansFound(w.rows, v);
    }
  }

  lemma {:induction false} DisplacingAsks(env: TickEnv, w: World, waiter: Row)
    requires Distinct(w.rows)
    ensures AskedWithConsent(w.rows, Displaced(env, w, waiter).rows, env.preemption.requireOptIn)
  {
    var victims := Victims(env, w, waiter);
    var optIn := env.preemption.requireOptIn;
    forall r | optIn && r in w.rows && r.id in RowIds(victims) ensures r.preemptible {
      var v :| v in victims && v.id == r.id;
      VictimsMayBeStopped(env, w, waiter, v);
      ListedMeansFound(w.rows, v);
      ListedMeansFound(w.rows, r);
    }
    forall id ensures AskedAt(w.rows, Displaced(env, w, waiter).rows, optIn, id) {
      MarkingAsks(w.rows, RowIds(victims), Some(waiter.id), optIn, id);
    }
  }

  lemma {:induction false} NobodyAsked(rows: seq<Row>, optIn: bool)
    ensures AskedWithConsent(rows, rows, optIn)
  {
  }

  lemma {:induction false} PlacingAsksNobody(
      env: TickEnv, s: State, row: Row, node: NodeName, fate: Fate, optIn: bool)
    ensures AskedWithConsent(s.w.rows, RemoteAttempt(env, s, row, node, fate).0.w.rows, optIn)
  {
    NobodyAsked(s.w.rows, optIn);
    FindMeansListed(s.w.rows, row.id);
    if row.travels && fate.shipped.Some? && Claimable(s, row.id).Some? {
      RewritingAsksNobody(s.w.rows, Claimable(s, row.id).value.(
        state := Running, startedAt := Some(env.now), node := Some(node), remoteId := Some(fate.shipped.value)), optIn);
    }
  }

  lemma {:induction false} StartingAsksNobody(
      env: TickEnv, s: State, row: Row, devices: seq<int>, fate: Fate, optIn: bool)
    ensures AskedWithConsent(s.w.rows, LocalStart(env, s, row, devices, fate).w.rows, optIn)
  {
    NobodyAsked(s.w.rows, optIn);
    FindMeansListed(s.w.rows, row.id);
    var found := Find(s.w.rows, row.id);
    if found.Some? {
      RewritingAsksNobody(s.w.rows, FinishedRow(found.value, Some(127)), optIn);
      var claimed := found.value.(state := Running, startedAt := Some(env.now));
      RewritingAsksNobody(s.w.rows, FinishedRow(claimed, Some(127)), optIn);
      if fate.launch.Launches? {
        RewritingAsksNobody(
          s.w.rows, claimed.(pid := Some(fate.launch.pid), creation := fate.launch.creation), optIn);
      }
    }
  }

  lemma {:induction false} RefusingAsks(env: TickEnv, s: State, row: Row)
    requires Distinct(s.w.rows)
    ensures AskedWithConsent(s.w.rows, RefusedStep(env, s, row).w.rows, env.preemption.requireOptIn)
  {
    RefusalMarks(env, s, row);
    NobodyAsked(s.w.rows, env.preemption.requireOptIn);
    DisplacingAsks(env, s.w, row);
  }

  lemma {:induction false} FreeTurnAsks(env: TickEnv, s: State, row: Row, later: seq<Row>, fate: Fate)
    requires Distinct(s.w.rows)
    ensures AskedWithConsent(s.w.rows, FreeStep(env, s, row, later, fate).w.rows, env.preemption.requireOptIn)
  {
    var optIn, verdict := env.preemption.requireOptIn, Judge(env, s, row);
    NobodyAsked(s.w.rows, optIn);
    var chosen := ChooseNode(env, s, row, later, verdict.Here?, fate);
    var s' := s;
    if chosen.Some? {
      PlacingAsksNobody(env, s, row, chosen.value, fate, optIn);
      FailedAttemptChangesNothing(env, s, row, chosen.value, fate);
      s' := RemoteAttempt(env, s, row, chosen.value, fate).0;
    }
    if verdict.Here? {
      StartingAsksNobody(env, s', row, verdict.devices, fate, optIn);
    } else if chosen.None? {
      RefusingAsks(env, s, row);
    }
  }

  lemma {:induction false} WithdrawingAsksNobody(s: State, row: Row, fate: Fate, optIn: bool)
    ensures AskedWithConsent(s.w.rows, Meanwhile(s, row, fate).w.rows, optIn)
    ensures Distinct(s.w.rows) ==> Distinct(Meanwhile(s, row, fate).w.rows)
  {
    NobodyAsked(s.w.rows, optIn);
    FindMeansListed(s.w.rows, row.id);
    var found := Find(s.w.rows, row.id);
    if fate.withdrawn && found.Some? {
      PutFacts(s.w.rows, found.value.(state := Removed), 0);
      RewritingAsksNobody(s.w.rows, found.value.(state := Removed), optIn);
    }
  }

  lemma {:induction false} TurnAsks(env: TickEnv, s: State, row: Row, later: seq<Row>, fate: Fate)
    requires Distinct(s.w.rows)
    ensures AskedWithConsent(s.w.rows, Step(env, s, row, later, fate).w.rows, env.preemption.requireOptIn)
  {
    var optIn, s1, s' := env.preemption.requireOptIn, Meanwhile(s, row, fate), Step(env, s, row, later, fate);
    WithdrawingAsksNobody(s, row, fate, optIn);
    NobodyAsked(s1.w.rows, optIn);
    if row.pinned.Some? {
      PlacingAsksNobody(env, s1, row, row.pinned.value, fate, optIn);
    } else if s1.closed {
      var chosen := ChooseNode(env, s1, row, later, false, fate);
      if chosen.Some? {
        PlacingAsksNobody(env, s1, row, chosen.value, fate, optIn);
      }
    } else {
      FreeTurnAsks(env, s1, row, later, fate);
    }
    AskedTwice(s.w.rows, s1.w.rows, s'.w.rows, optIn);
  }

  lemma {:induction false} OneTurnMore(m: Machine, env: TickEnv, fates: seq<Fate>, turns: nat)
    requires |fates| == |Dispatchable(m.w.rows)| && 0 < turns <= |fates|
    ensures var queue := Dispatchable(m.w.rows);
      Midway(m, env, fates, turns)
      == Step(env, Midway(m, env, fates, turns - 1), queue[turns - 1], queue[turns..], fates[turns - 1])
  {
  }

  lemma {:induction false} NextTurnAsks(m: Machine, env: TickEnv, fates: seq<Fate>, turns: nat)
    requires |fates| == |Dispatchable(m.w.rows)| && 0 < turns <= |fates|
    requires Distinct(Midway(m, env, fates, turns - 1).w.rows)
    ensures AskedWithConsent(
      Midway(m, env, fates, turns - 1).w.rows, Midway(m, env, fates, turns).w.rows, env.preemption.requireOptIn)
  {
    var queue := Dispatchable(m.w.rows);
    OneTurnMore(m, env, fates, turns);
    TurnAsks(env, Midway(m, env, fates, turns - 1), queue[turns - 1], queue[turns..], fates[turns - 1]);
  }

  lemma {:induction false} NoTurnYet(m: Machine, env: TickEnv, fates: seq<Fate>)
    requires |fates| == |Dispatchable(m.w.rows)|
    ensures Midway(m, env, fates, 0).w == m.w
  {
  }

  lemma {:induction false} TickAsks(m: Machine, env: TickEnv, fates: seq<Fate>, turns: nat)
    requires Consistent(m.w) && |fates| == |Dispatchable(m.w.rows)| && turns <= |fates|
    ensures AskedWithConsent(m.w.rows, Midway(m, env, fates, turns).w.rows, env.preemption.requireOptIn)
  {
    if turns == 0 {
      NoTurnYet(m, env, fates);
      NobodyAsked(m.w.rows, env.preemption.requireOptIn);
    } else {
      var rows := Midway(m, env, fates, turns - 1).w.rows;
      TickAsks(m, env, fates, turns - 1);
      TickStaysConsistent(m, env, fates, turns - 1);
      NextTurnAsks(m, env, fates, turns);
      AskedTwice(m.w.rows, rows, Midway(m, env, fates, turns).w.rows, env.preemption.requireOptIn);
    }
  }

  // ---- who gets asked, event by event ------------------------------------

  lemma {:induction false} EndingAsksNobody(w: World, id: JobId, exit: Option<int>, optIn: bool)
    ensures AskedWithConsent(w.rows, FinishIn(w, id, exit).rows, optIn)
    ensures Distinct(w.rows) ==> Distinct(FinishIn(w, id, exit).rows)
  {
    NobodyAsked(w.rows, optIn);
    FindMeansListed(w.rows, id);
    if Find(w.rows, id).Some? {
      PutFacts(w.rows, FinishedRow(Find(w.rows, id).value, exit), id);
      RewritingAsksNobody(w.rows, FinishedRow(Find(w.rows, id).value, exit), optIn);
    }
  }

  lemma {:induction false} ReapingAsksNobody(
      w: World, jobs: seq<Devices.RunningJob>, exits: map<JobId, int>, k: nat, optIn: bool)
    requires k <= |jobs|
    ensures AskedWithConsent(w.rows, ReapedTo(w, jobs, exits, k).rows, optIn)
  {
    NobodyAsked(w.rows, optIn);
    if k > 0 {
      ReapingAsksNobody(w, jobs, exits, k - 1, optIn);
      var before, id := ReapedTo(w, jobs, exits, k - 1), jobs[k - 1].id;
      if id in exits {
        var w1 := before.(running := Devices.DropRunning(before.running, {id}));
        EndingAsksNobody(w1, id, Some(exits[id]), optIn);
        FindMeansListed(before.rows, id);
        if Find(before.rows, id).Some? {
          RewritingAsksNobody(before.rows, RequeuedRow(before.rows, Find(before.rows, id).value), optIn);
        }
        AskedTwice(w.rows, before.rows, ReapOne(before, id, exits[id]).rows, optIn);
      }
    }
  }

  lemma {:induction false} ReapingAdoptedAsksNobody(
      w: World, jobs: seq<AdoptedJob>, procs: map<int, int>, k: nat, optIn: bool)
    requires k <= |jobs|
    ensures AskedWithConsent(w.rows, ReapedAdoptedTo(w, jobs, procs, k).rows, optIn)
  {
    NobodyAsked(w.rows, optIn);
    if k > 0 {
      ReapingAdoptedAsksNobody(w, jobs, procs, k - 1, optIn);
      var before, id := ReapedAdoptedTo(w, jobs, procs, k - 1), jobs[k - 1].id;
      if !StillThere(jobs[k - 1], procs) {
        EndingAsksNobody(before.(adopted := DropAdopted(before.adopted, {id})), id, None, optIn);
        AskedTwice(w.rows, before.rows, ReapAdoptedOne(before, id).rows, optIn);
      }
    }
  }

  lemma {:induction false} RecoveringAsksNobody(
      rows: seq<Row>, listed: seq<Row>, procs: map<int, int>, k: nat, optIn: bool)
    requires k <= |listed|
    ensures AskedWithConsent(rows, RecoveredTo(rows, listed, procs, k).rows, optIn)
  {
    NobodyAsked(rows, optIn);
    if k > 0 {
      RecoveringAsksNobody(rows, listed, procs, k - 1, optIn);
      var before := RecoveredTo(rows, listed, procs, k - 1);
      EndingAsksNobody(before, listed[k - 1].id, None, optIn);
      NobodyAsked(before.rows, optIn);
      AskedTwice(rows, before.rows, RecoverOne(before, listed[k - 1], procs).rows, optIn);
    }
  }

  lemma {:induction false} CrashAsks(
      m: Machine, env: TickEnv, fates: seq<Fate>, turns: nat, claiming: bool, procs: map<int, int>)
    requires Consistent(m.w) && |fates| == |Dispatchable(m.w.rows)|
    requires turns <= |fates| && (claiming ==> turns < |fates|)
    ensures var left := LeftByCrash(m, env, fates, turns, claiming);
      AskedWithConsent(m.w.rows, Recovered(left, procs).rows, env.preemption.requireOptIn)
  {
    var optIn := env.preemption.requireOptIn;
    var rows, left := Midway(m, env, fates, turns).w.rows, LeftByCrash(m, env, fates, turns, claiming);
    TickAsks(m, env, fates, turns);
    NobodyAsked(rows, optIn);
    if claiming {
      var id := Dispatchable(m.w.rows)[turns].id;
      FindMeansListed(rows, id);
      if Find(rows, id).Some? {
        RewritingAsksNobody(rows, Find(rows, id).value.(state := Running, startedAt := Some(env.now)), optIn);
      }
    }
    RecoveringAsksNobody(left, InState(left, Running), procs, |InState(left, Running)|, optIn);
    AskedTwice(m.w.rows, rows, left, optIn);
    AskedTwice(m.w.rows, left, Recovered(left, procs).rows, optIn);
  }

  lemma {:induction false} SamplingAsks(m: Machine, policy: PressurePolicy, free: Option<real>, now: real)
    requires Distinct(m.w.rows)
    ensures AskedWithConsent(m.w.rows, Sampled(m, policy, free, now).w.rows, true)
  {
    NobodyAsked(m.w.rows, true);
    PressureVictimIsNewest(m.w.rows, m.w.Active(), now);
    var victim := PressureVictim(m.w.rows, m.w.Active(), now);
    if victim.Some? {
      forall r | r in m.w.rows && r.id in {victim.value.id} ensures r.preemptible {
        ListedMeansFound(m.w.rows, r);
        ListedMeansFound(m.w.rows, victim.value);
      }
      forall id ensures AskedAt(m.w.rows, Marked(m.w.rows, {victim.value.id}, None), true, id) {
        MarkingAsks(m.w.rows, {victim.value.id}, None, true, id);
      }
    }
  }

  /** Events in which the dispatcher acts by itself, and where a policy applies asks for consent. Others' edits
      are the rest: a new or amended row says what it likes, and anybody may set a flag by hand. */
  predicate Own(ev: Event) {
    !ev.Enqueue? && !ev.Amend? && !ev.AskStop?
  }

  predicate AsksConsent(ev: Event) {
    match ev
    case Tick(env, _) => env.preemption.requireOptIn
    case Crash(env, _, _, _, _) => env.preemption.requireOptIn
    case _ => true
  }

  /** Whatever the dispatcher does by itself, under a policy that asks for consent: of a row that has not
      given it no stop flag is set. */
  lemma {:induction false} DispatcherAsksWithConsent(m: Machine, ev: Event, fix: Fixture)
    requires Consistent(m.w) && Possible(m, ev, fix) && Own(ev) && AsksConsent(ev)
    ensures AskedWithConsent(m.w.rows, After(m, ev, fix).w.rows, true)
  {
    var w := m.w;
    NobodyAsked(w.rows, true);
    match ev
    case Tick(env, fates) => TickAsks(m, env, fates, |fates|);
    case Crash(env, fates, turns, claiming, procs) => CrashAsks(m, env, fates, turns, claiming, procs);
    case Reap(exits) => ReapingAsksNobody(w, w.running, exits, |w.running|, true);
    case ReapAdopted(procs) => ReapingAdoptedAsksNobody(w, w.adopted, procs, |w.adopted|, true);
    case KillAdopted(id) => EndingAsksNobody(w, id, Some(-1), true);
    case Restart(procs) =>
      var listed := InState(w.rows, Running);
      RecoveringAsksNobody(w.rows, listed, procs, |listed|, true);
    case Withdraw(id) =>
      FindMeansListed(w.rows, id);
      if Find(w.rows, id).Some? {
        RewritingAsksNobody(w.rows, Find(w.rows, id).value.(state := Removed), true);
      }
    case RemoteDone(id, exit) => EndingAsksNobody(w, id, exit, true);
    case Trim(gone) =>
      forall id ensures AskedAt(w.rows, Without(w.rows, gone), true, id) {
        WithoutFacts(w.rows, gone, id);
      }
    case Poll(_, _) =>
    case Sample(policy, free, now) => SamplingAsks(m, policy, free, now);
  }

  // ---- over runs ---------------------------------------------------------

  /** There is no such row, or it has not opted in and nobody has asked it to stop. */
  ghost predicate LeftAlone(m: Machine, id: JobId) {
    Find(m.w.rows, id).Some? ==>
      !Find(m.w.rows, id).value.preemptible && !Find(m.w.rows, id).value.preemptRequested
  }

  /** Nobody else gives consent for the job, or asks it to stop. */
  predicate NobodyElseAsks(ev: Event, id: JobId) {
    match ev
    case Enqueue(row) => row.id == id ==> !row.preemptible && !row.preemptRequested
    case Amend(row) => row.id == id ==> !row.preemptible && !row.preemptRequested
    case AskStop(other, cancel, _) => other == id ==> cancel
    case _ => true
  }

  /** Over every run in which consent is asked for, a job that never opted in is never asked to stop by the
      dispatcher: however ticks, crashes, restarts and memory pressure come, its flag stays down unless somebody
      else puts it up. */
  lemma {:induction false} UnwillingJobsAreLeftAlone(
      ms: seq<Machine>, evs: seq<Event>, fix: Fixture, k: nat, id: JobId)
    requires Run(ms, evs, fix) && Consistent(ms[0].w) && k <= |evs|
    requires LeftAlone(ms[0], id)
    requires forall i :: 0 <= i < k ==> AsksConsent(evs[i]) && NobodyElseAsks(evs[i], id)
    ensures LeftAlone(ms[k], id)
  {
    if k > 0 {
      UnwillingJobsAreLeftAlone(ms, evs, fix, k - 1, id);
      EveryRunIsConsistent(ms, evs, fix, k - 1);
      assert Happens(ms, evs, fix, k - 1);
      EventLeavesAlone(ms[k - 1], evs[k - 1], fix, id);
    }
  }

  lemma {:induction false} EventLeavesAlone(m: Machine, ev: Event, fix: Fixture, id: JobId)
    requires Consistent(m.w) && Possible(m, ev, fix) && AsksConsent(ev) && NobodyElseAsks(ev, id)
    requires LeftAlone(m, id)
    ensures LeftAlone(After(m, ev, fix), id)
  {
    if Own(ev) {
      DispatcherAsksWithConsent(m, ev, fix);
      assert AskedAt(m.w.rows, After(m, ev, fix).w.rows, true, id);
    } else {
      match ev
      case Enqueue(row) => PutFacts(m.w.rows, row, id);
      case Amend(row) => PutFacts(m.w.rows, row, id);
      case AskStop(other, cancel, waiter) =>
        FindMeansListed(m.w.rows, other);
        PutFacts(m.w.rows, Flagged(Find(m.w.rows, other).value, cancel, waiter), id);
      case _ =>
    }
  }
}
