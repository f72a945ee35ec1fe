/** What one job's turn can do to the machine: nothing that matters, or exactly one launch.

    Every property of a tick rests on this case split, so it is proved once, here. */
module StepEffects {
  import opened Wrappers
  import opened Resources
  import opened QueueRows
  import opened Devices
  import opened World
  import opened Scan
  import Preemption

  // ---- consistency of the dispatcher with its queue ----------------------

  ghost predicate JobsDiffer(jobs: seq<RunningJob>) {
    forall i, j :: 0 <= i < j < |jobs| ==> jobs[i].id != jobs[j].id
  }

  ghost predicate AdoptedDiffer(jobs: seq<AdoptedJob>) {
    forall i, j :: 0 <= i < j < |jobs| ==> jobs[i].id != jobs[j].id
  }

  predicate RunsHere(row: Row) {
    row.state == Running && row.node.None?
  }

  /** The books agree about one id: what was launched is running here, what was adopted runs here or
      has just been finished, a row running here is one of the two, and a waiting row is placed nowhere
      and has no process. */
  ghost predicate Agrees(w: World, id: JobId) {
    var row := Find(w.rows, id);
    && (id in JobIds(w.running) ==> row.Some? && RunsHere(row.value))
    && (id in AdoptedIds(w.adopted) && row.Some? ==> RunsHere(row.value) || row.value.state == Finished)
    && (row.Some? && RunsHere(row.value) ==> id in w.Active())
    && (row.Some? && row.value.state == Queued ==> row.value.node.None? && row.value.pid.None?)
  }

  /** The dispatcher's own books agree with the queue table. */
  ghost predicate Consistent(w: World) {
    && Distinct(w.rows)
    && JobsDiffer(w.running) && AdoptedDiffer(w.adopted)
    && JobIds(w.running) !! AdoptedIds(w.adopted)
    && forall id :: Agrees(w, id)
  }

  // ---- quiet changes -----------------------------------------------------

  /** A job still shares, or not, on the same terms. */
  ghost predicate SameTerms(w: World, w': World, id: JobId) {
    ModeOf(w'.rows, id) == ModeOf(w.rows, id) && VramOf(w'.rows, id) == VramOf(w.rows, id)
  }

  /** Nothing a later decision depends on has moved: the same jobs hold the same reservations and the
      same devices on the same terms. */
  ghost predicate Quiet(cfg: Limits, w: World, w': World) {
    && w'.running == w.running && w'.adopted == w.adopted
    && Ledger(cfg, w') == Ledger(cfg, w)
    && forall id :: id in JobIds(w.running) ==> SameTerms(w, w', id)
  }

  /** A row is as it was, or is running and had its preemption flag set. */
  ghost predicate Kept(w: World, w': World, id: JobId) {
    var was, row := Find(w.rows, id), Find(w'.rows, id);
    row == was || (was.Some? && row.Some? && was.value.state == Running && Preemption.SameButFlag(was.value, row.value))
  }

  ghost predicate OthersKept(w: World, w': World, id: JobId) {
    forall other :: other != id ==> Kept(w, w', other)
  }

  lemma {:induction false} KeptTwice(w: World, w1: World, w2: World, id: JobId)
    requires OthersKept(w, w1, id) && OthersKept(w1, w2, id)
    ensures OthersKept(w, w2, id)
  {
    forall other | other != id ensures Kept(w, w2, other) {
      assert Kept(w, w1, other) && Kept(w1, w2, other);
    }
  }

  lemma {:induction false} QuietTwice(cfg: Limits, w: World, w1: World, w2: World)
    requires Quiet(cfg, w, w1) && Quiet(cfg, w1, w2)
    ensures Quiet(cfg, w, w2)
  {
    forall id | id in JobIds(w.running) ensures SameTerms(w, w2, id) {
      assert SameTerms(w, w1, id) && SameTerms(w1, w2, id);
    }
  }

  lemma {:induction false} KeptMeansSameTerms(w: World, w': World, id: JobId)
    requires Kept(w, w', id)
    ensures SameTerms(w, w', id)
    ensures w'.running == w.running && w'.adopted == w.adopted && Agrees(w, id) ==> Agrees(w', id)
  {
  }

  lemma {:induction false} IdleRowWeighsNothing(cfg: Limits, rows: seq<Row>, was: Row, row: Row, active: set<JobId>)
    requires Distinct(rows) && Find(rows, row.id) == Some(was)
    requires !Holds(was, active) && !Holds(row, active)
    ensures Reserved(cfg, Put(rows, row), active) == Reserved(cfg, rows, active)
  {
    LedgerMovesByOneRow(cfg, rows, was, row, active, active);
    PlusLaws(Reserved(cfg, Put(rows, row), active), Nothing(), Nothing());
    PlusLaws(Reserved(cfg, rows, active), Nothing(), Nothing());
  }

  lemma {:induction false} PutKeepsOthers(w: World, row: Row, running: seq<RunningJob>)
    ensures OthersKept(w, World(Put(w.rows, row), running, w.adopted), row.id)
    ensures Find(Put(w.rows, row), row.id) == Some(row)
  {
    var w' := World(Put(w.rows, row), running, w.adopted);
    PutFacts(w.rows, row, row.id);
    forall other | other != row.id ensures Kept(w, w', other) {
      PutFacts(w.rows, row, other);
    }
  }

  /** Rewriting the row of a job nobody here follows is quiet. */
  lemma {:induction false} RewriteIsQuiet(cfg: Limits, w: World, was: Row, row: Row)
    requires Consistent(w) && Find(w.rows, row.id) == Some(was)
    requires was.state != Finished && !RunsHere(was)
    requires !RunsHere(row) && (row.state == Queued ==> row.node.None? && row.pid.None?)
    ensures var w' := w.(rows := Put(w.rows, row));
      Quiet(cfg, w, w') && OthersKept(w, w', row.id) && Consistent(w') && Find(w'.rows, row.id) == Some(row)
  {
    var w' := w.(rows := Put(w.rows, row));
    assert Agrees(w, row.id);
    FindMeansListed(w.rows, row.id);
    IdleRowWeighsNothing(cfg, w.rows, was, row, w.Active());
    PutFacts(w.rows, row, row.id);
    PutKeepsOthers(w, row, w.running);
    forall id ensures Agrees(w', id) && (id in JobIds(w.running) ==> SameTerms(w, w', id)) {
      if id != row.id {
        assert Kept(w, w', id) && Agrees(w, id);
        KeptMeansSameTerms(w, w', id);
      }
    }
  }

  /** So is asking running jobs to stop, whoever asks. */
  lemma {:induction false} MarkingIsQuiet(cfg: Limits, w: World, victims: set<JobId>, asker: Option<JobId>, id: JobId)
    requires Consistent(w)
    ensures var w' := w.(rows := Preemption.Marked(w.rows, victims, asker));
      Quiet(cfg, w, w') && OthersKept(w, w', id) && Consistent(w') && Kept(w, w', id)
  {
    var w' := w.(rows := Preemption.Marked(w.rows, victims, asker));
    Preemption.MarkingKeepsLedger(cfg, w.rows, victims, asker, w.Active());
    forall other ensures Kept(w, w', other) && Agrees(w', other) && SameTerms(w, w', other) {
      Preemption.MarkingOnlyFlags(w.rows, victims, asker, other);
      assert Agrees(w, other);
      KeptMeansSameTerms(w, w', other);
    }
    Preemption.MarkingKeepsIds(w.rows, victims, asker);
  }

  lemma {:induction false} DisplacingIsQuiet(env: TickEnv, w: World, waiter: Row, id: JobId)
    requires Consistent(w)
    ensures var w' := Preemption.Displaced(env, w, waiter);
      Quiet(env.cfg, w, w') && OthersKept(w, w', id) && Consistent(w') && Kept(w, w', id)
  {
    var victims := Preemption.RowIds(Preemption.Victims(env, w, waiter));
    MarkingIsQuiet(env.cfg, w, victims, Some(waiter.id), id);
  }

  // ---- a launch ----------------------------------------------------------

  /** Exactly one job has been launched here, on devices the verdict gave it. */
  ghost predicate Launched(env: TickEnv, s: State, s': State, row: Row) {
    && Judge(env, s, row).Here?
    && s'.w.running == s.w.running + [RunningJob(row.id, Judge(env, s, row).devices)]
    && s'.w.adopted == s.w.adopted
    && s'.inFlight == s.inFlight + 1
    && Ledger(env.cfg, s'.w) == Plus(RequestFor(env.cfg, row), Ledger(env.cfg, s.w))
    && row.id !in s.w.Active()
    && ModeOf(s'.w.rows, row.id) == row.mode && VramOf(s'.w.rows, row.id) == DeclaredVram(row)
    && forall id :: id in JobIds(s.w.running) ==> SameTerms(s.w, s'.w, id)
  }

  lemma {:induction false} LaunchKeepsBooks(w: World, row: Row, launched: Row, devices: seq<int>)
    requires Consistent(w) && Find(w.rows, row.id) == Some(row) && row.state == Queued
    requires launched.id == row.id && RunsHere(launched)
    ensures var w' := World(Put(w.rows, launched), w.running + [RunningJob(row.id, devices)], w.adopted);
      && Consistent(w') && OthersKept(w, w', row.id) && Find(w'.rows, row.id) == Some(launched)
      && w'.Active() == w.Active() + {row.id} && row.id !in w.Active()
      && forall id :: id in JobIds(w.running) ==> SameTerms(w, w', id)
  {
    var job := RunningJob(row.id, devices);
    var w' := World(Put(w.rows, launched), w.running + [job], w.adopted);
    assert Agrees(w, row.id);
    PutKeepsOthers(w, launched, w'.running);
    PutFacts(w.rows, launched, row.id);
    JobIdsAppend(w.running, job);
    FreshJobDiffers(w.running, job);
    forall id ensures Agrees(w', id) && (id in JobIds(w.running) ==> SameTerms(w, w', id)) {
      if id != row.id {
        assert Agrees(w, id) && Kept(w, w', id);
        KeptMeansSameTerms(w, w', id);
      }
    }
  }

  lemma {:induction false} LaunchEffect(env: TickEnv, s: State, row: Row, devices: seq<int>, fate: Fate)
    requires Consistent(s.w) && Find(s.w.rows, row.id) == Some(row) && row.state == Queued
    requires Judge(env, s, row) == Here(devices)
    requires row.argvOk && fate.launch.Launches?
    ensures var s' := LocalStart(env, s, row, devices, fate);
      && Launched(env, s, s', row) && Consistent(s'.w) && OthersKept(s.w, s'.w, row.id)
      && s'.head == s.head && s'.held == s.held
  {
    var s' := LocalStart(env, s, row, devices, fate);
    assert Agrees(s.w, row.id);
    var launched := row.(state := Running, startedAt := Some(env.now),
                         pid := Some(fate.launch.pid), creation := fate.launch.creation);
    assert s'.w == World(Put(s.w.rows, launched), s.w.running + [RunningJob(row.id, devices)], s.w.adopted);
    LaunchKeepsBooks(s.w, row, launched, devices);
    LaunchIsCharged(env.cfg, s.w, row, launched, s'.w);
  }

  lemma {:induction false} LaunchIsCharged(cfg: Limits, w: World, row: Row, launched: Row, w': World)
    requires Distinct(w.rows) && Find(w.rows, row.id) == Some(row) && row.state == Queued
    requires launched.state == Running && launched.id == row.id && RequestFor(cfg, launched) == RequestFor(cfg, row)
    requires w'.rows == Put(w.rows, launched) && w'.Active() == w.Active() + {row.id}
    ensures Ledger(cfg, w') == Plus(RequestFor(cfg, row), Ledger(cfg, w))
  {
    LedgerMovesByOneRow(cfg, w.rows, row, launched, w.Active(), w'.Active());
    PlusLaws(Ledger(cfg, w'), Nothing(), Nothing());
  }

  lemma {:induction false} FreshJobDiffers(jobs: seq<RunningJob>, job: RunningJob)
    requires JobsDiffer(jobs) && job.id !in JobIds(jobs)
    ensures JobsDiffer(jobs + [job])
  {
    forall k | 0 <= k < |jobs| ensures jobs[k].id != job.id {
      JobIsListed(jobs, k);
    }
  }

  lemma {:induction false} JobIsListed(jobs: seq<RunningJob>, k: nat)
    requires k < |jobs|
    ensures jobs[k].id in JobIds(jobs)
  {
    if k > 0 {
      JobIsListed(jobs[1..], k - 1);
    }
  }

  // ---- one turn ----------------------------------------------------------

  /** What a turn leaves: a consistent world, reached quietly or by one launch, with only this job's
      row and some preemption flags rewritten, and any hold still for the same head. */
  ghost predicate Turn(env: TickEnv, s: State, s': State, row: Row) {
    && Consistent(s'.w)
    && OthersKept(s.w, s'.w, row.id)
    && (if s'.inFlight == s.inFlight then Quiet(env.cfg, s.w, s'.w) else Launched(env, s, s', row))
    && (s.held.Some? ==> s'.held == s.held)
    && ((s.held.Some? ==> s.head.Some?) ==> (s'.held.Some? ==> s'.head.Some?))
  }

  /** A job's stored row is still what the tick read, or another process has withdrawn it. */
  predicate AsRead(w: World, row: Row) {
    Find(w.rows, row.id) == Some(row) || Find(w.rows, row.id) == Some(row.(state := Removed))
  }

  lemma {:induction false} RemoteEffect(env: TickEnv, s: State, row: Row, node: NodeName, fate: Fate)
    requires Consistent(s.w) && AsRead(s.w, row) && row.state == Queued
    ensures var (s', ok) := RemoteAttempt(env, s, row, node, fate);
      && Consistent(s'.w) && OthersKept(s.w, s'.w, row.id) && Quiet(env.cfg, s.w, s'.w)
      && s'.inFlight == s.inFlight && s'.held == s.held && s'.head == s.head
      && (!ok ==> s'.w == s.w)
  {
    if row.travels && fate.shipped.Some? && Claimable(s, row.id).Some? {
      RewriteIsQuiet(env.cfg, s.w, row, row.(
        state := Running, startedAt := Some(env.now), node := Some(node), remoteId := Some(fate.shipped.value)));
    }
  }

  /** Finishing this job's row instead of starting it is a quiet turn. */
  lemma {:induction false} FailedStartEffect(env: TickEnv, s: State, row: Row, found: Row, failed: Row)
    requires Consistent(s.w) && Find(s.w.rows, row.id) == Some(found)
    requires found.state == Queued || found.state == Removed
    requires failed.id == row.id && failed.state == Finished
    ensures Turn(env, s, SetRow(s, failed), row) && Quiet(env.cfg, s.w, SetRow(s, failed).w)
  {
    RewriteIsQuiet(env.cfg, s.w, found, failed);
  }

  lemma {:induction false} StartEffect(env: TickEnv, s: State, row: Row, devices: seq<int>, fate: Fate)
    requires Consistent(s.w) && AsRead(s.w, row) && row.state == Queued
    requires Judge(env, s, row) == Here(devices)
    ensures Turn(env, s, LocalStart(env, s, row, devices, fate), row)
    ensures Find(s.w.rows, row.id) != Some(row) ==> Quiet(env.cfg, s.w, LocalStart(env, s, row, devices, fate).w)
  {
    var found := Find(s.w.rows, row.id).value;
    if !row.argvOk {
      FailedStartEffect(env, s, row, found, FinishedRow(found, Some(127)));
    } else if found.state != Queued {
      StandingStill(env, s, row);
    } else if fate.launch.SpawnFails? {
      var claimed := found.(state := Running, startedAt := Some(env.now));
      FailedStartEffect(env, s, row, found, FinishedRow(claimed, Some(127)));
    } else {
      LaunchEffect(env, s, row, devices, fate);
    }
  }

  lemma {:induction false} StandingStill(env: TickEnv, s: State, row: Row)
    requires Consistent(s.w)
    ensures Turn(env, s, s, row) && Quiet(env.cfg, s.w, s.w)
  {
  }

  /** Refusing changes the queue table only by asking others to stop. */
  lemma {:induction false} RefusalMarks(env: TickEnv, s: State, row: Row)
    ensures var s' := RefusedStep(env, s, row);
      && s'.w == (if s.head.None? then Preemption.Displaced(env, s.w, row) else s.w)
      && s'.inFlight == s.inFlight && s'.head.Some?
      && (s.head.Some? ==> s'.held == s.held)
  {
  }

  lemma {:induction false} RefusedEffect(env: TickEnv, s: State, row: Row, id: JobId)
    requires Consistent(s.w)
    requires s.held.Some? ==> s.head.Some?
    ensures var s' := RefusedStep(env, s, row);
      && Consistent(s'.w) && OthersKept(s.w, s'.w, id) && Kept(s.w, s'.w, id) && Quiet(env.cfg, s.w, s'.w)
      && s'.inFlight == s.inFlight && s'.head.Some?
      && (s.held.Some? ==> s'.held == s.held)
  {
    RefusalMarks(env, s, row);
    if s.head.None? {
      DisplacingIsQuiet(env, s.w, row, id);
    } else {
      StandingStill(env, s, row);
    }
  }

  lemma {:induction false} MeanwhileEffect(cfg: Limits, s: State, row: Row, fate: Fate)
    requires Consistent(s.w) && Find(s.w.rows, row.id) == Some(row) && row.state == Queued
    ensures var s' := Meanwhile(s, row, fate);
      && Consistent(s'.w) && Quiet(cfg, s.w, s'.w) && OthersKept(s.w, s'.w, row.id)
      && AsRead(s'.w, row) && s' == s.(w := s'.w, away := s'.away)
      && (fate.withdrawn ==> Find(s'.w.rows, row.id) == Some(row.(state := Removed)))
  {
    if fate.withdrawn {
      RewriteIsQuiet(cfg, s.w, row, row.(state := Removed));
    }
  }

  lemma {:induction false} RefusedIsATurn(env: TickEnv, s: State, row: Row)
    requires Consistent(s.w)
    requires s.held.Some? ==> s.head.Some?
    ensures Turn(env, s, RefusedStep(env, s, row), row) && Quiet(env.cfg, s.w, RefusedStep(env, s, row).w)
  {
    RefusedEffect(env, s, row, row.id);
  }

  lemma {:induction false} StayEffect(env: TickEnv, s: State, row: Row, offered: bool, fate: Fate)
    requires Consistent(s.w) && AsRead(s.w, row) && row.state == Queued
    requires s.held.Some? ==> s.head.Some?
    ensures var s' := StayStep(env, s, row, Judge(env, s, row), offered, fate);
      Turn(env, s, s', row) && (Find(s.w.rows, row.id) != Some(row) ==> Quiet(env.cfg, s.w, s'.w))
  {
    var verdict := Judge(env, s, row);
    if verdict.Here? {
      StartEffect(env, s, row, verdict.devices, fate);
    } else if offered {
      StandingStill(env, s, row);
    } else {
      RefusedIsATurn(env, s, row);
    }
  }

  /** A failed attempt elsewhere leaves the job to be judged exactly as before. */
  lemma {:induction false} FailedAttemptChangesNothing(env: TickEnv, s: State, row: Row, node: NodeName, fate: Fate)
    ensures var (s', ok) := RemoteAttempt(env, s, row, node, fate);
      !ok ==> s' == s.(blocked := s'.blocked, away := s'.away) && Judge(env, s', row) == Judge(env, s, row)
  {
  }

  lemma {:induction false} TurnWithOtherNotes(env: TickEnv, s: State, s1: State, s': State, row: Row)
    requires s1 == s.(blocked := s1.blocked, away := s1.away) && Turn(env, s1, s', row)
    ensures Turn(env, s, s', row)
  {
    if s'.inFlight != s.inFlight {
      assert Judge(env, s1, row) == Judge(env, s, row);
    }
  }

  lemma {:induction false} FreeEffect(env: TickEnv, s: State, row: Row, later: seq<Row>, fate: Fate)
    requires Consistent(s.w) && AsRead(s.w, row) && row.state == Queued
    requires s.held.Some? ==> s.head.Some?
    ensures Turn(env, s, FreeStep(env, s, row, later, fate), row)
    ensures Find(s.w.rows, row.id) != Some(row) ==> Quiet(env.cfg, s.w, FreeStep(env, s, row, later, fate).w)
  {
    var chosen := ChooseNode(env, s, row, later, Judge(env, s, row).Here?, fate);
    if chosen.None? {
      StayEffect(env, s, row, false, fate);
    } else {
      var (s', away) := RemoteAttempt(env, s, row, chosen.value, fate);
      if away {
        RemoteEffect(env, s, row, chosen.value, fate);
      } else {
        FailedAttemptChangesNothing(env, s, row, chosen.value, fate);
        StayEffect(env, s', row, true, fate);
        TurnWithOtherNotes(env, s, s', FreeStep(env, s, row, later, fate), row);
      }
    }
  }

  lemma {:induction false} TurnAfterMeanwhile(env: TickEnv, s: State, s1: State, s': State, row: Row)
    requires Quiet(env.cfg, s.w, s1.w) && OthersKept(s.w, s1.w, row.id) && s1 == s.(w := s1.w, away := s1.away)
    requires Turn(env, s1, s', row) && Quiet(env.cfg, s1.w, s'.w) && s'.inFlight == s1.inFlight
    ensures Turn(env, s, s', row) && Quiet(env.cfg, s.w, s'.w)
  {
    KeptTwice(s.w, s1.w, s'.w, row.id);
    QuietTwice(env.cfg, s.w, s1.w, s'.w);
  }

  lemma {:induction false} TurnAfterReports(env: TickEnv, s: State, s1: State, s': State, row: Row)
    requires s1 == s.(away := s1.away) && Turn(env, s1, s', row)
    ensures Turn(env, s, s', row)
  {
    if s'.inFlight != s.inFlight {
      assert Judge(env, s1, row) == Judge(env, s, row);
    }
  }

  lemma {:induction false} TryPinnedEffect(env: TickEnv, s: State, row: Row, node: NodeName, fate: Fate)
    requires Consistent(s.w) && AsRead(s.w, row) && row.state == Queued
    ensures var (s', ok) := TryPinned(env, s, row, node, fate);
      && Consistent(s'.w) && OthersKept(s.w, s'.w, row.id) && Quiet(env.cfg, s.w, s'.w)
      && s'.inFlight == s.inFlight && s'.held == s.held && s'.head == s.head
  {
    StandingStill(env, s, row);
    RemoteEffect(env, s, row, node, fate);
  }

  lemma {:induction false} PinnedEffect(env: TickEnv, s: State, row: Row, fate: Fate)
    requires Consistent(s.w) && AsRead(s.w, row) && row.state == Queued && row.pinned.Some?
    ensures var s' := PinnedStep(env, s, row, fate);
      Turn(env, s, s', row) && Quiet(env.cfg, s.w, s'.w) && s'.inFlight == s.inFlight
  {
    TryPinnedEffect(env, s, row, row.pinned.value, fate);
  }

  lemma {:induction false} ElsewhereEffect(env: TickEnv, s: State, row: Row, later: seq<Row>, fate: Fate)
    requires Consistent(s.w) && AsRead(s.w, row) && row.state == Queued
    ensures var s' := ElsewhereStep(env, s, row, later, fate);
      Turn(env, s, s', row) && Quiet(env.cfg, s.w, s'.w) && s'.inFlight == s.inFlight
  {
    StandingStill(env, s, row);
    var chosen := ChooseNode(env, s, row, later, false, fate);
    if chosen.Some? {
      RemoteEffect(env, s, row, chosen.value, fate);
    }
  }

  lemma {:induction false} StepEffect(env: TickEnv, s: State, row: Row, later: seq<Row>, fate: Fate)
    requires Consistent(s.w) && Find(s.w.rows, row.id) == Some(row) && row.state == Queued
    requires s.held.Some? ==> s.head.Some?
    ensures Turn(env, s, Step(env, s, row, later, fate), row)
    ensures fate.withdrawn || s.closed || row.pinned.Some?
      ==> Quiet(env.cfg, s.w, Step(env, s, row, later, fate).w)
  {
    var s1 := Meanwhile(s, row, fate);
    var s' := Step(env, s, row, later, fate);
    MeanwhileEffect(env.cfg, s, row, fate);
    if row.pinned.Some? {
      PinnedEffect(env, s1, row, fate);
    } else if s1.closed {
      ElsewhereEffect(env, s1, row, later, fate);
    } else {
      FreeEffect(env, s1, row, later, fate);
    }
    if fate.withdrawn {
      TurnAfterMeanwhile(env, s, s1, s', row);
    } else {
      TurnAfterReports(env, s, s1, s', row);
    }
  }
}
