/** Everything that ends a job's stay here: reaping, adopted jobs disappearing, and a restart. */
module Upkeep {
  import opened Wrappers
  import opened Resources
  import opened QueueRows
  import opened Devices
  import opened World
  import opened Scan
  import opened StepEffects

  // ---- rows --------------------------------------------------------------

  /** Lowest position among queued rows, zero when there is none. */
  function FrontPosition(rows: seq<Row>): int {
    var queued := InState(rows, Queued);
    if queued == [] then 0 else LeastPosition(queued)
  }

  function LeastPosition(rows: seq<Row>): int
    requires rows != []
  {
    if |rows| == 1 then rows[0].position
    else
      var rest := LeastPosition(rows[1..]);
      if rows[0].position < rest then rows[0].position else rest
  }

  /** The row of a displaced job, placed below every queued position, unflagged and without a process. */
  function RequeuedRow(rows: seq<Row>, row: Row): Row {
    row.(state := Queued, position := FrontPosition(rows) - 1,
         pid := None, creation := None, startedAt := None, preemptRequested := false, preemptBy := None)
  }

  lemma {:induction false} LeastIsLeast(rows: seq<Row>, k: nat)
    requires k < |rows|
    ensures LeastPosition(rows) <= rows[k].position
  {
    if |rows| > 1 && k > 0 {
      LeastIsLeast(rows[1..], k - 1);
    }
  }

  lemma {:induction false} InStateMembers(rows: seq<Row>, state: BackendState, row: Row)
    ensures row in InState(rows, state) <==> row in rows && row.state == state
  {
    if rows != [] {
      InStateMembers(rows[1..], state, row);
      assert rows == [rows[0]] + rows[1..];
    }
  }

  /** It already waited once: no queued job of its own priority is dispatched before it. */
  lemma {:induction false} RequeuedGoesFirstInItsTier(rows: seq<Row>, row: Row, other: Row)
    requires other in rows && other.state == Queued && other.rank == row.rank
    ensures Before(RequeuedRow(rows, row), other)
  {
    InStateMembers(rows, Queued, other);
    var queued := InState(rows, Queued);
    var k :| 0 <= k < |queued| && queued[k] == other;
    LeastIsLeast(queued, k);
  }

  // ---- worlds ------------------------------------------------------------

  function WithRow(w: World, row: Row): World {
    w.(rows := Put(w.rows, row))
  }

  function FinishIn(w: World, id: JobId, exit: Option<int>): World {
    var row := Find(w.rows, id);
    if row.None? then w else WithRow(w, FinishedRow(row.value, exit))
  }

  /** A launched job's process has exited: displaced jobs go back to the queue, others are finished. */
  function ReapOne(w: World, id: JobId, code: int): World {
    var w1 := w.(running := DropRunning(w.running, {id}));
    var row := Find(w.rows, id);
    if row.Some? && row.value.preemptRequested then WithRow(w1, RequeuedRow(w.rows, row.value))
    else FinishIn(w1, id, Some(code))
  }

  /** The first `k` jobs of `jobs` have been polled; `exits` holds those whose process has ended. */
  function ReapedTo(w: World, jobs: seq<RunningJob>, exits: map<JobId, int>, k: nat): World
    requires k <= |jobs|
  {
    if k == 0 then w
    else
      var before := ReapedTo(w, jobs, exits, k - 1);
      if jobs[k - 1].id in exits then ReapOne(before, jobs[k - 1].id, exits[jobs[k - 1].id]) else before
  }

  /** An adopted job has no exit code to read: it is finished when its process is no longer there,
      even if it was being displaced. */
  function ReapAdoptedOne(w: World, id: JobId): World {
    FinishIn(w.(adopted := DropAdopted(w.adopted, {id})), id, None)
  }

  /** `procs` is the creation time of every live process id. */
  predicate StillThere(job: AdoptedJob, procs: map<int, int>) {
    job.pid in procs && procs[job.pid] == job.creation
  }

  function ReapedAdoptedTo(w: World, jobs: seq<AdoptedJob>, procs: map<int, int>, k: nat): World
    requires k <= |jobs|
  {
    if k == 0 then w
    else
      var before := ReapedAdoptedTo(w, jobs, procs, k - 1);
      if StillThere(jobs[k - 1], procs) then before else ReapAdoptedOne(before, jobs[k - 1].id)
  }

  // ---- restart -----------------------------------------------------------

  /** The recorded process is still this job's. */
  predicate Verified(row: Row, procs: map<int, int>) {
    row.pid.Some? && row.pid.value in procs && (row.creation.None? || row.creation.value == procs[row.pid.value])
  }

  function RecoverOne(w: World, row: Row, procs: map<int, int>): World {
    if row.node.Some? then w
    else if Verified(row, procs) then
      w.(adopted := w.adopted + [AdoptedJob(row.id, row.pid.value, procs[row.pid.value])])
    else FinishIn(w, row.id, None)
  }

  function RecoveredTo(rows: seq<Row>, listed: seq<Row>, procs: map<int, int>, k: nat): World
    requires k <= |listed|
  {
    if k == 0 then World(rows, [], [])
    else RecoverOne(RecoveredTo(rows, listed, procs, k - 1), listed[k - 1], procs)
  }

  /** The whole recovery, over every running row in table order. */
  function Recovered(rows: seq<Row>, procs: map<int, int>): World {
    var listed := InState(rows, Running);
    RecoveredTo(rows, listed, procs, |listed|)
  }

  /** A job asked to stop that has not stopped yet. */
  ghost predicate Stopping(w: World, id: JobId) {
    var row := Find(w.rows, id);
    id in w.Active() && row.Some? && row.value.state == Running && row.value.preemptRequested
  }

  // ---- facts about dropping jobs -----------------------------------------

  lemma {:induction false} DropRunningIds(jobs: seq<RunningJob>, gone: set<JobId>)
    ensures JobIds(DropRunning(jobs, gone)) == JobIds(jobs) - gone
    ensures |DropRunning(jobs, gone)| <= |jobs|
  {
    if jobs != [] {
      var n := |jobs| - 1;
      var kept := DropRunning(jobs[..n], gone);
      DropRunningIds(jobs[..n], gone);
      assert jobs == jobs[..n] + [jobs[n]];
      JobIdsAppend(jobs[..n], jobs[n]);
      JobIdsAppend(kept, jobs[n]);
      assert kept + [] == kept;
    }
  }

  lemma {:induction false} DropRunningMembers(jobs: seq<RunningJob>, gone: set<JobId>)
    ensures forall j :: j in DropRunning(jobs, gone) ==> j in jobs
    ensures JobsDiffer(jobs) ==> JobsDiffer(DropRunning(jobs, gone))
  {
    if jobs != [] {
      var n := |jobs| - 1;
      var kept := DropRunning(jobs[..n], gone);
      DropRunningMembers(jobs[..n], gone);
      forall j | j in kept ensures j in jobs && (JobsDiffer(jobs) ==> j.id != jobs[n].id) {
        var m :| 0 <= m < n && jobs[..n][m] == j;
        assert jobs[m] == j;
      }
      if jobs[n].id in gone {
        assert DropRunning(jobs, gone) == kept;
      } else {
        assert DropRunning(jobs, gone) == kept + [jobs[n]];
        forall k | 0 <= k < |kept| ensures kept[k] in kept {
        }
      }
    }
  }

  lemma {:induction false} DropAdoptedFacts(jobs: seq<AdoptedJob>, gone: set<JobId>)
    ensures AdoptedIds(DropAdopted(jobs, gone)) == AdoptedIds(jobs) - gone
    ensures |DropAdopted(jobs, gone)| <= |jobs|
  {
    if jobs != [] {
      var rest := DropAdopted(jobs[1..], gone);
      DropAdoptedFacts(jobs[1..], gone);
      assert ([jobs[0]] + rest)[1..] == rest;
      if jobs[0].id in gone {
        assert DropAdopted(jobs, gone) == rest;
      }
    }
  }

  lemma {:induction false} DropAdoptedMembers(jobs: seq<AdoptedJob>, gone: set<JobId>)
    ensures forall j :: j in DropAdopted(jobs, gone) ==> j in jobs
    ensures AdoptedDiffer(jobs) ==> AdoptedDiffer(DropAdopted(jobs, gone))
  {
    if jobs != [] {
      var rest := DropAdopted(jobs[1..], gone);
      DropAdoptedMembers(jobs[1..], gone);
      forall k | 0 <= k < |rest| ensures rest[k] in jobs[1..] {
        assert rest[k] in rest;
      }
    }
  }

  lemma {:induction false} AdoptedIsListed(jobs: seq<AdoptedJob>, k: nat)
    requires k < |jobs|
    ensures jobs[k].id in AdoptedIds(jobs)
  {
    if k > 0 {
      AdoptedIsListed(jobs[1..], k - 1);
    }
  }

  lemma {:induction false} AdoptedIdsAppend(jobs: seq<AdoptedJob>, job: AdoptedJob)
    ensures AdoptedIds(jobs + [job]) == AdoptedIds(jobs) + {job.id}
  {
    if jobs == [] {
      assert jobs + [job] == [job];
    } else {
      assert (jobs + [job])[1..] == jobs[1..] + [job];
      AdoptedIdsAppend(jobs[1..], job);
    }
  }

  // ---- leaving -----------------------------------------------------------

  /** A job has left: its row no longer runs here and nobody follows it, and no other job noticed. */
  ghost predicate Left(w: World, w': World, id: JobId) {
    && Consistent(w')
    && OthersKept(w, w', id)
    && w'.Active() == w.Active() - {id}
    && w'.running == DropRunning(w.running, {id})
    && w'.InFlight() <= w.InFlight()
  }

  /** Rewriting a row to one that is not running, while its id leaves the books. */
  lemma {:induction false} LeavingIsConsistent(w: World, row: Row, running: seq<RunningJob>, adopted: seq<AdoptedJob>)
    requires Consistent(w) && Find(w.rows, row.id).Some?
    requires row.state == Finished || (row.state == Queued && row.node.None? && row.pid.None?)
    requires running == DropRunning(w.running, {row.id}) && AdoptedIds(adopted) == AdoptedIds(w.adopted) - {row.id}
    requires |adopted| <= |w.adopted| && AdoptedDiffer(adopted)
    ensures Left(w, World(Put(w.rows, row), running, adopted), row.id)
    ensures Find(Put(w.rows, row), row.id) == Some(row)
  {
    var w' := World(Put(w.rows, row), running, adopted);
    DropRunningIds(w.running, {row.id});
    DropRunningMembers(w.running, {row.id});
    PutFacts(w.rows, row, row.id);
    forall other | other != row.id ensures Kept(w, w', other) {
      PutFacts(w.rows, row, other);
    }
    forall id ensures Agrees(w', id) {
      assert Agrees(w, id);
      if id != row.id {
        assert Kept(w, w', id);
      }
    }
  }

  /** Its reservation goes back: the ledger never grows when a job leaves. */
  lemma {:induction false} LeavingGivesBack(cfg: Limits, w: World, row: Row, w': World)
    requires Distinct(w.rows) && Find(w.rows, row.id).Some? && row.state != Running
    requires w'.rows == Put(w.rows, row) && w'.Active() - {row.id} == w.Active() - {row.id}
    ensures Within(Ledger(cfg, w'), Ledger(cfg, w))
  {
    var was := Find(w.rows, row.id).value;
    LedgerMovesByOneRow(cfg, w.rows, was, row, w.Active(), w'.Active());
    PlusLaws(Ledger(cfg, w), Nothing(), Nothing());
  }

  lemma {:induction false} ReapOneLeaves(cfg: Limits, w: World, id: JobId, code: int)
    requires Consistent(w) && id in JobIds(w.running)
    ensures Left(w, ReapOne(w, id, code), id) && Within(Ledger(cfg, ReapOne(w, id, code)), Ledger(cfg, w))
  {
    assert Agrees(w, id);
    FindMeansListed(w.rows, id);
    var row := Find(w.rows, id).value;
    var row' := if row.preemptRequested then RequeuedRow(w.rows, row) else FinishedRow(row, Some(code));
    WithoutAdopted(w.adopted, id);
    LeavingIsConsistent(w, row', DropRunning(w.running, {id}), w.adopted);
    LeavingGivesBack(cfg, w, row', ReapOne(w, id, code));
  }

  lemma {:induction false} WithoutAdopted(jobs: seq<AdoptedJob>, id: JobId)
    requires id !in AdoptedIds(jobs)
    ensures AdoptedIds(jobs) - {id} == AdoptedIds(jobs)
  {
  }

  lemma {:induction false} DropAbsent(jobs: seq<RunningJob>, id: JobId)
    requires id !in JobIds(jobs)
    ensures DropRunning(jobs, {id}) == jobs
  {
    if jobs != [] {
      var n := |jobs| - 1;
      assert jobs == jobs[..n] + [jobs[n]];
      JobIdsAppend(jobs[..n], jobs[n]);
      DropAbsent(jobs[..n], id);
    }
  }

  lemma {:induction false} ReapAdoptedLeaves(cfg: Limits, w: World, id: JobId)
    requires Consistent(w) && id in AdoptedIds(w.adopted)
    ensures Left(w, ReapAdoptedOne(w, id), id) && Within(Ledger(cfg, ReapAdoptedOne(w, id)), Ledger(cfg, w))
  {
    assert Agrees(w, id);
    DropAdoptedFacts(w.adopted, {id});
    DropAdoptedMembers(w.adopted, {id});
    DropAbsent(w.running, id);
    FindMeansListed(w.rows, id);
    var w' := ReapAdoptedOne(w, id);
    if Find(w.rows, id).Some? {
      var row := FinishedRow(Find(w.rows, id).value, None);
      LeavingIsConsistent(w, row, w.running, w'.adopted);
      LeavingGivesBack(cfg, w, row, w');
    } else {
      forall other ensures Agrees(w', other) && Kept(w, w', other) {
        assert Agrees(w, other);
      }
      ReservedSameActive(cfg, w.rows, w.Active(), w'.Active());
    }
  }
}
