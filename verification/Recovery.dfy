/** A restart rebuilds the books from the queue table alone, and the ledger is right at once. */
module Recovery {
  import opened Wrappers
  import opened Resources
  import opened QueueRows
  import opened Devices
  import opened World
  import opened Scan
  import opened StepEffects
  import opened Upkeep
  import Preemption

  /** Requests of exactly the rows running on this machine. */
  function LocalRequests(cfg: Limits, rows: seq<Row>): seq<ResourceRequest> {
    if rows == [] then []
    else (if RunsHere(rows[0]) then [RequestFor(cfg, rows[0])] else []) + LocalRequests(cfg, rows[1..])
  }

  lemma {:induction false} HoldingMeansRunningHere(cfg: Limits, rows: seq<Row>, active: set<JobId>)
    requires forall r :: r in rows ==> (Holds(r, active) <==> RunsHere(r))
    ensures ActiveRequests(cfg, rows, active) == LocalRequests(cfg, rows)
  {
    if rows != [] {
      assert rows[0] in rows;
      HoldingMeansRunningHere(cfg, rows[1..], active);
    }
  }

  /** Whenever the books agree, the ledger counts exactly the rows running on this machine: none is
      missed, none is counted twice, and nothing running elsewhere is charged here. */
  lemma {:induction false} LedgerCountsExactlyLocalRunning(cfg: Limits, w: World)
    requires Consistent(w)
    ensures RunningRequests(cfg, w) == LocalRequests(cfg, w.rows)
  {
    forall r | r in w.rows ensures Holds(r, w.Active()) <==> RunsHere(r) {
      ListedMeansFound(w.rows, r);
      assert Agrees(w, r.id);
    }
    HoldingMeansRunningHere(cfg, w.rows, w.Active());
  }

  // ---- recovery, row by row ----------------------------------------------

  /** What recovery has done about one id, once it has been looked at or not yet. */
  ghost predicate Settled(rows: seq<Row>, w: World, procs: map<int, int>, id: JobId, seen: bool) {
    var row := Find(rows, id);
    if seen && row.Some? && RunsHere(row.value) then
      if Verified(row.value, procs) then id in AdoptedIds(w.adopted) && Find(w.rows, id) == row
      else id !in AdoptedIds(w.adopted) && Find(w.rows, id) == Some(FinishedRow(row.value, None))
    else id !in AdoptedIds(w.adopted) && Find(w.rows, id) == row
  }

  lemma {:induction false} InStateDistinct(rows: seq<Row>, state: BackendState)
    requires Distinct(rows)
    ensures var listed := InState(rows, state);
      forall i, j :: 0 <= i < j < |listed| ==> listed[i].id != listed[j].id
  {
    if rows != [] {
      InStateDistinct(rows[1..], state);
      var rest := InState(rows[1..], state);
      forall k | 0 <= k < |rest| ensures rest[k].id != rows[0].id {
        InStateMembers(rows[1..], state, rest[k]);
        Preemption.MemberIsListed(rows[1..], rest[k]);
      }
    }
  }

  /** Recovering one row settles it and disturbs no other. */
  lemma {:induction false} RecoverOneSettles(
      rows: seq<Row>, w: World, row: Row, procs: map<int, int>, id: JobId, seen: bool)
    requires Find(rows, row.id) == Some(row) && row.state == Running && w.running == []
    requires Settled(rows, w, procs, id, seen) && (id == row.id ==> !seen)
    ensures Settled(rows, RecoverOne(w, row, procs), procs, id, seen || id == row.id)
    ensures Distinct(w.rows) ==> Distinct(RecoverOne(w, row, procs).rows)
  {
    if Verified(row, procs) {
      AdoptedIdsAppend(w.adopted, AdoptedJob(row.id, row.pid.value, procs[row.pid.value]));
    }
    var stored := Find(w.rows, row.id);
    if stored.Some? {
      FindMeansListed(w.rows, row.id);
      PutFacts(w.rows, FinishedRow(stored.value, None), id);
    }
  }

  function SeenIn(listed: seq<Row>, k: nat): set<JobId>
    requires k <= |listed|
  {
    if k == 0 then {} else SeenIn(listed, k - 1) + {listed[k - 1].id}
  }

  lemma {:induction false} SeenMeansListed(listed: seq<Row>, k: nat, id: JobId)
    requires k <= |listed|
    ensures id in SeenIn(listed, k) <==> exists i :: 0 <= i < k && listed[i].id == id
  {
    if k > 0 {
      SeenMeansListed(listed, k - 1, id);
    }
  }

  /** Recovery so far: the ids in `seen` are settled, the others untouched. */
  ghost predicate Progress(rows: seq<Row>, w: World, procs: map<int, int>, seen: set<JobId>) {
    && w.running == [] && Distinct(w.rows)
    && AdoptedDiffer(w.adopted)
    && forall id :: Settled(rows, w, procs, id, id in seen)
  }

  lemma {:induction false} RecoverOneProgresses(
      rows: seq<Row>, w: World, row: Row, procs: map<int, int>, seen: set<JobId>)
    requires Progress(rows, w, procs, seen)
    requires Find(rows, row.id) == Some(row) && row.state == Running && row.id !in seen
    ensures Progress(rows, RecoverOne(w, row, procs), procs, seen + {row.id})
  {
    var w' := RecoverOne(w, row, procs);
    forall id ensures Settled(rows, w', procs, id, id in seen + {row.id}) && Distinct(w'.rows) {
      assert Settled(rows, w, procs, id, id in seen);
      RecoverOneSettles(rows, w, row, procs, id, id in seen);
    }
    assert Settled(rows, w, procs, row.id, false);
    if w'.adopted != w.adopted {
      forall k | 0 <= k < |w.adopted| ensures w.adopted[k].id != row.id {
        AdoptedIsListed(w.adopted, k);
      }
    }
  }

  /** The rows a recovery walks over are the table's own, each once. */
  lemma {:induction false} ListedRow(rows: seq<Row>, k: nat)
    requires Distinct(rows) && k < |InState(rows, Running)|
    ensures var row := InState(rows, Running)[k];
      Find(rows, row.id) == Some(row) && row.state == Running && row.id !in SeenIn(InState(rows, Running), k)
  {
    var listed := InState(rows, Running);
    InStateDistinct(rows, Running);
    SeenMeansListed(listed, k, listed[k].id);
    InStateMembers(rows, Running, listed[k]);
    ListedMeansFound(rows, listed[k]);
  }

  lemma {:induction false} RecoveredToProgresses(rows: seq<Row>, listed: seq<Row>, procs: map<int, int>, k: nat)
    requires Distinct(rows) && listed == InState(rows, Running) && k <= |listed|
    ensures Progress(rows, RecoveredTo(rows, listed, procs, k), procs, SeenIn(listed, k))
  {
    if k > 0 {
      RecoveredToProgresses(rows, listed, procs, k - 1);
      ListedRow(rows, k - 1);
      RecoverOneProgresses(rows, RecoveredTo(rows, listed, procs, k - 1), listed[k - 1], procs, SeenIn(listed, k - 1));
    }
  }

  lemma {:induction false} RecoveredSettles(rows: seq<Row>, procs: map<int, int>, id: JobId)
    requires Distinct(rows)
    ensures Settled(rows, Recovered(rows, procs), procs, id, true)
  {
    var listed := InState(rows, Running);
    RecoveredToProgresses(rows, listed, procs, |listed|);
    var w := Recovered(rows, procs);
    assert Settled(rows, w, procs, id, id in SeenIn(listed, |listed|));
    SeenMeansListed(listed, |listed|, id);
    var row := Find(rows, id);
    FindMeansListed(rows, id);
    if row.Some? && RunsHere(row.value) {
      InStateMembers(rows, Running, row.value);
      var i :| 0 <= i < |listed| && listed[i] == row.value;
    }
  }

  /** A waiting row is placed nowhere and has no process. */
  ghost predicate Waiting(rows: seq<Row>, id: JobId) {
    var row := Find(rows, id);
    row.Some? && row.value.state == Queued ==> row.value.node.None? && row.value.pid.None?
  }

  /** Every waiting row is so: what any crash leaves in the table. */
  ghost predicate Placeless(rows: seq<Row>) {
    forall id :: Waiting(rows, id)
  }

  /** Recovery kept an id: its row runs here and its recorded process is the one running. */
  ghost predicate Survives(rows: seq<Row>, procs: map<int, int>, id: JobId) {
    var row := Find(rows, id);
    row.Some? && RunsHere(row.value) && Verified(row.value, procs)
  }

  ghost predicate RunsIn(rows: seq<Row>, id: JobId) {
    Find(rows, id).Some? && RunsHere(Find(rows, id).value)
  }

  lemma {:induction false} RestartOutcome(rows: seq<Row>, procs: map<int, int>, id: JobId)
    requires Distinct(rows) && Placeless(rows)
    ensures var w := Recovered(rows, procs);
      && w.running == [] && Distinct(w.rows) && AdoptedDiffer(w.adopted)
      && Agrees(w, id)
      && (id in w.Active() <==> Survives(rows, procs, id))
      && (RunsIn(w.rows, id) <==> Survives(rows, procs, id))
      && (RunsIn(w.rows, id) ==> Find(w.rows, id) == Find(rows, id))
  {
    var listed := InState(rows, Running);
    assert Waiting(rows, id);
    RecoveredToProgresses(rows, listed, procs, |listed|);
    RecoveredSettles(rows, procs, id);
  }

  /** A restart after any crash: from the table alone, whatever the dead dispatcher had in hand, the new
      books agree, and both the jobs followed and the rows left running here are exactly those whose
      recorded process is still the one running. */
  lemma {:induction false} RestartFollowsExactlyTheLiving(rows: seq<Row>, procs: map<int, int>)
    requires Distinct(rows) && Placeless(rows)
    ensures Consistent(Recovered(rows, procs))
    ensures forall id :: id in Recovered(rows, procs).Active() <==> Survives(rows, procs, id)
    ensures forall id :: RunsIn(Recovered(rows, procs).rows, id) <==> Survives(rows, procs, id)
  {
    forall id ensures Agrees(Recovered(rows, procs), id)
      && (id in Recovered(rows, procs).Active() <==> Survives(rows, procs, id))
      && (RunsIn(Recovered(rows, procs).rows, id) <==> Survives(rows, procs, id))
    {
      RestartOutcome(rows, procs, id);
    }
    RestartOutcome(rows, procs, 0);
  }

  // ---- a restart gives nothing away --------------------------------------

  lemma {:induction false} FinishingGivesBack(cfg: Limits, w: World, id: JobId, active: set<JobId>)
    requires Distinct(w.rows)
    ensures Within(Reserved(cfg, FinishIn(w, id, None).rows, active), Reserved(cfg, w.rows, active))
  {
    var row := Find(w.rows, id);
    if row.Some? {
      FindMeansListed(w.rows, id);
      LedgerMovesByOneRow(cfg, w.rows, row.value, FinishedRow(row.value, None), active, active);
      PlusLaws(Reserved(cfg, w.rows, active), Nothing(), Nothing());
    }
  }

  lemma {:induction false} RecoverOneGivesBack(
      cfg: Limits, w: World, row: Row, procs: map<int, int>, active: set<JobId>)
    requires Distinct(w.rows)
    ensures Within(Reserved(cfg, RecoverOne(w, row, procs).rows, active), Reserved(cfg, w.rows, active))
  {
    FinishingGivesBack(cfg, w, row.id, active);
  }

  lemma {:induction false} RecoveredToGivesBack(
      cfg: Limits, rows: seq<Row>, listed: seq<Row>, procs: map<int, int>, k: nat, active: set<JobId>)
    requires Distinct(rows) && listed == InState(rows, Running) && k <= |listed|
    ensures Within(Reserved(cfg, RecoveredTo(rows, listed, procs, k).rows, active), Reserved(cfg, rows, active))
  {
    if k > 0 {
      RecoveredToGivesBack(cfg, rows, listed, procs, k - 1, active);
      RecoveredToProgresses(rows, listed, procs, k - 1);
      RecoverOneGivesBack(cfg, RecoveredTo(rows, listed, procs, k - 1), listed[k - 1], procs, active);
    }
  }

  lemma {:induction false} IdsAreFew(w: World)
    ensures |w.Active()| <= w.InFlight()
  {
    RunningIdsAreFew(w.running);
    AdoptedIdsAreFew(w.adopted);
  }

  lemma {:induction false} RunningIdsAreFew(jobs: seq<RunningJob>)
    ensures |JobIds(jobs)| <= |jobs|
  {
    if jobs != [] {
      RunningIdsAreFew(jobs[1..]);
    }
  }

  lemma {:induction false} DifferentAdoptedAreMany(jobs: seq<AdoptedJob>)
    requires AdoptedDiffer(jobs)
    ensures |AdoptedIds(jobs)| == |jobs|
  {
    if jobs != [] {
      DifferentAdoptedAreMany(jobs[1..]);
      if jobs[0].id in AdoptedIds(jobs[1..]) {
        AdoptedIdIsSomeones(jobs[1..], jobs[0].id);
      }
    }
  }

  lemma {:induction false} AdoptedIdIsSomeones(jobs: seq<AdoptedJob>, id: JobId)
    requires id in AdoptedIds(jobs)
    ensures exists k :: 0 <= k < |jobs| && jobs[k].id == id
  {
    if jobs[0].id != id {
      AdoptedIdIsSomeones(jobs[1..], id);
      var k :| 0 <= k < |jobs[1..]| && jobs[1..][k].id == id;
      assert jobs[k + 1].id == id;
    }
  }

  lemma {:induction false} AdoptedIdsAreFew(jobs: seq<AdoptedJob>)
    ensures |AdoptedIds(jobs)| <= |jobs|
  {
    if jobs != [] {
      AdoptedIdsAreFew(jobs[1..]);
    }
  }

  // ---- what a crash leaves -----------------------------------------------

  /** The table as a dispatcher that died claiming `id` leaves it: the row runs, with no process recorded. */
  function ClaimedOnly(rows: seq<Row>, id: JobId, now: real): seq<Row> {
    var row := Find(rows, id);
    if row.Some? && row.value.state == Queued
    then Put(rows, row.value.(state := Running, startedAt := Some(now))) else rows
  }

  /** A table some dispatcher that followed `w` can have left: it reserves no more than `w` did, and whatever
      still runs here by its recorded process was followed. */
  ghost predicate LeftBehind(cfg: Limits, w: World, rows: seq<Row>, procs: map<int, int>) {
    && Distinct(rows) && Placeless(rows)
    && Within(Reserved(cfg, rows, w.Active()), Ledger(cfg, w))
    && forall id :: Survives(rows, procs, id) ==> id in w.Active()
  }

  lemma {:induction false} TableIsLeftBehind(cfg: Limits, w: World, procs: map<int, int>)
    requires Consistent(w)
    ensures LeftBehind(cfg, w, w.rows, procs)
  {
    forall id ensures Waiting(w.rows, id) && (Survives(w.rows, procs, id) ==> id in w.Active()) {
      assert Agrees(w, id);
    }
  }

  lemma {:induction false} HalfClaimIsLeftBehind(cfg: Limits, w: World, id: JobId, now: real, procs: map<int, int>)
    requires Consistent(w)
    ensures LeftBehind(cfg, w, ClaimedOnly(w.rows, id, now), procs)
  {
    TableIsLeftBehind(cfg, w, procs);
    var was := Find(w.rows, id);
    if was.Some? && was.value.state == Queued {
      var row := was.value.(state := Running, startedAt := Some(now));
      FindMeansListed(w.rows, id);
      assert Agrees(w, id);
      IdleRowWeighsNothing(cfg, w.rows, was.value, row, w.Active());
      PutFacts(w.rows, row, id);
      forall other ensures Waiting(Put(w.rows, row), other)
        && (Survives(Put(w.rows, row), procs, other) ==> other in w.Active())
      {
        PutFacts(w.rows, row, other);
        assert Waiting(w.rows, other);
        assert Survives(w.rows, procs, other) ==> other in w.Active();
      }
    }
  }

  /** Restarting on such a table neither raises the ledger nor adds jobs in flight. */
  lemma {:induction false} RestartNeverAdds(cfg: Limits, w: World, rows: seq<Row>, procs: map<int, int>)
    requires LeftBehind(cfg, w, rows, procs)
    ensures var w' := Recovered(rows, procs);
      Within(Ledger(cfg, w'), Ledger(cfg, w)) && w'.InFlight() <= w.InFlight()
  {
    var w' := Recovered(rows, procs);
    var listed := InState(rows, Running);
    RestartOutcome(rows, procs, 0);
    RecoveredToGivesBack(cfg, rows, listed, procs, |listed|, w.Active());
    forall id | id in w'.Active() ensures id in w.Active() {
      RestartOutcome(rows, procs, id);
    }
    Preemption.FewerActiveReserveLess(cfg, w'.rows, w'.Active(), w.Active());
    SmallerSet(w'.Active(), w.Active());
    IdsAreFew(w);
    DifferentAdoptedAreMany(w'.adopted);
    assert w'.Active() == AdoptedIds(w'.adopted);
  }
}
