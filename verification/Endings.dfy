/** What is written about jobs that end, and about those a new dispatcher finds: column by column, job by job. */
module Endings {
  import opened Wrappers
  import opened QueueRows
  import opened Devices
  import opened World
  import opened Scan
  import opened StepEffects
  import opened Upkeep
  import opened Recovery
  import Runs

  /** It runs here under a process number that is taken, and by the process recorded, if a creation time was. */
  predicate Alive(row: Row, procs: map<int, int>) {
    && row.state == Running && row.node == None && row.pid.Some? && row.pid.value in procs
    && (row.creation.Some? ==> row.creation.value == procs[row.pid.value])
  }

  /** Finished with this exit code, and no process any more. */
  function Ended(row: Row, exit: Option<int>): Row {
    row.(state := BackendState.Finished, exit := exit, pid := None, creation := None)
  }

  // ---- a restart ---------------------------------------------------------

  lemma {:induction false} AdoptedFromRows(rows: seq<Row>, listed: seq<Row>, procs: map<int, int>, k: nat)
    requires k <= |listed|
    ensures forall j :: j in RecoveredTo(rows, listed, procs, k).adopted ==>
      exists i :: 0 <= i < k && listed[i].id == j.id && listed[i].pid == Some(j.pid)
        && j.pid in procs && j.creation == procs[j.pid]
  {
    if k > 0 {
      AdoptedFromRows(rows, listed, procs, k - 1);
    }
  }

  lemma {:induction false} AdoptedAt(jobs: seq<AdoptedJob>, id: JobId) returns (k: nat)
    requires id in AdoptedIds(jobs)
    ensures k < |jobs| && jobs[k].id == id
  {
    k := 0;
    if jobs[0].id != id {
      var rest := AdoptedAt(jobs[1..], id);
      k := rest + 1;
    }
  }

  /** What a restart makes of each row: a job running here is followed, by its process and that process's creation
      time, while it is alive, and finished without an exit code when it is not; no other row is touched. */
  ghost predicate TakenOver(rows: seq<Row>, w: World, procs: map<int, int>, id: JobId) {
    var was, row := Find(rows, id), Find(w.rows, id);
    if was.None? || was.value.state != Running || was.value.node.Some? then row == was && id !in w.Active()
    else if Alive(was.value, procs) then
      row == was && AdoptedJob(id, was.value.pid.value, procs[was.value.pid.value]) in w.adopted
    else row == Some(Ended(was.value, None)) && id !in w.Active()
  }

  lemma {:induction false} RestartTakesOver(rows: seq<Row>, procs: map<int, int>, id: JobId)
    requires Distinct(rows)
    ensures TakenOver(rows, Recovered(rows, procs), procs, id) && Recovered(rows, procs).running == []
  {
    var listed, w := InState(rows, Running), Recovered(rows, procs);
    RecoveredSettles(rows, procs, id);
    RecoveredToProgresses(rows, listed, procs, |listed|);
    AdoptedFromRows(rows, listed, procs, |listed|);
    if id in AdoptedIds(w.adopted) {
      var k := AdoptedAt(w.adopted, id);
      var i :| 0 <= i < |listed| && listed[i].id == id && listed[i].pid == Some(w.adopted[k].pid)
        && w.adopted[k].pid in procs && w.adopted[k].creation == procs[w.adopted[k].pid];
      ListedRow(rows, i);
      assert w.adopted[k] in w.adopted;
    }
  }

  /** A dispatcher that takes over begins with nothing noted: no hold, no wait, no placement, no report, no strike. */
  lemma {:induction false} NothingIsCarriedOver(m: Runs.Machine, ev: Runs.Event, fix: Runs.Fixture)
    requires Runs.Possible(m, ev, fix) && (ev.Restart? || ev.Crash?)
    ensures var m' := Runs.After(m, ev, fix);
      && m'.clock.since == map[] && m'.clock.spent == map[] && m'.blocked == map[] && m'.strikes == 0
      && m'.away.failures == map[] && m'.away.reports == map[] && m'.away.recalls == []
  {
    match ev
    case Crash(env, fates, turns, claiming, procs) =>
      var left := Runs.LeftByCrash(m, env, fates, turns, claiming);
      assert Runs.After(m, ev, fix) == Runs.Restarted(left, procs);
    case _ =>
  }

  // ---- jobs launched here ------------------------------------------------

  /** A job whose process exited goes back to the queue, unflagged and ahead of what waits there, if it was asked to
      stop, and else is finished with the exit code; every other job and its row are as they were. */
  ghost predicate LeftWith(w: World, w': World, exits: map<JobId, int>, id: JobId) {
    var was, row := Find(w.rows, id), Find(w'.rows, id);
    if id !in JobIds(w.running) || id !in exits then
      row == was && (id in JobIds(w'.running) <==> id in JobIds(w.running))
    else
      && id !in JobIds(w'.running)
      && (was.None? ==> row.None?)
      && (was.Some? ==> row.Some? && EndsAs(was.value, row.value, exits[id]))
  }

  predicate EndsAs(was: Row, row: Row, code: int) {
    if was.preemptRequested then
      row == was.(state := Queued, position := row.position, startedAt := None, pid := None, creation := None,
                  preemptRequested := false, preemptBy := None)
    else row == Ended(was, Some(code))
  }

  lemma {:induction false} ReapOneEnds(w: World, id: JobId, code: int, other: JobId)
    ensures var w' := ReapOne(w, id, code);
      && (other != id ==> Find(w'.rows, other) == Find(w.rows, other))
      && (other in JobIds(w'.running) <==> other in JobIds(w.running) && other != id)
    ensures var was, row := Find(w.rows, id), Find(ReapOne(w, id, code).rows, id);
      && (was.None? ==> row.None?)
      && (was.Some? ==> row.Some? && EndsAs(was.value, row.value, code))
  {
    DropRunningIds(w.running, {id});
    FindMeansListed(w.rows, id);
    var was := Find(w.rows, id);
    if was.Some? {
      var row :=
        if was.value.preemptRequested then RequeuedRow(w.rows, was.value) else FinishedRow(was.value, Some(code));
      PutFacts(w.rows, row, id);
      PutFacts(w.rows, row, other);
    }
  }

  /** The job is among the first `k` of the list. */
  ghost predicate Among(jobs: seq<RunningJob>, k: nat, id: JobId)
    requires k <= |jobs|
  {
    exists j :: 0 <= j < k && jobs[j].id == id
  }

  lemma {:induction false} ReapedSoFar(w: World, exits: map<JobId, int>, k: nat, id: JobId)
    requires JobsDiffer(w.running) && k <= |w.running|
    ensures var w' := ReapedTo(w, w.running, exits, k);
      if Among(w.running, k, id) then LeftWith(w, w', exits, id)
      else Find(w'.rows, id) == Find(w.rows, id) && (id in JobIds(w'.running) <==> id in JobIds(w.running))
  {
    if k > 0 {
      ReapedSoFar(w, exits, k - 1, id);
      var before, last := ReapedTo(w, w.running, exits, k - 1), w.running[k - 1].id;
      JobIsListed(w.running, k - 1);
      assert Among(w.running, k, id) <==> Among(w.running, k - 1, id) || last == id;
      if last in exits {
        ReapOneEnds(before, last, exits[last], id);
      }
    }
  }

  lemma {:induction false} ListedIsAmong(jobs: seq<RunningJob>, id: JobId)
    ensures id in JobIds(jobs) <==> Among(jobs, |jobs|, id)
  {
    if jobs != [] {
      ListedIsAmong(jobs[1..], id);
      forall k | 0 <= k < |jobs[1..]| ensures jobs[1..][k] == jobs[k + 1] {
      }
      if Among(jobs, |jobs|, id) && jobs[0].id != id {
        var k :| 0 <= k < |jobs| && jobs[k].id == id;
        assert jobs[1..][k - 1].id == id;
      }
    }
  }

  /** Reaping records exactly what ended, and how. */
  lemma {:induction false} ReapingRecordsHowEachEnded(w: World, exits: map<JobId, int>, id: JobId)
    requires JobsDiffer(w.running)
    ensures LeftWith(w, ReapedTo(w, w.running, exits, |w.running|), exits, id)
  {
    ReapedSoFar(w, exits, |w.running|, id);
    ListedIsAmong(w.running, id);
  }

  /** A displaced job stands ahead of everything that waits. */
  lemma {:induction false} DisplacedStandsFirst(w: World, id: JobId, code: int, other: Row)
    requires Find(w.rows, id).Some? && Find(w.rows, id).value.preemptRequested
    requires other in w.rows && other.state == Queued
    ensures Find(ReapOne(w, id, code).rows, id).Some?
    ensures Find(ReapOne(w, id, code).rows, id).value.position < other.position
  {
    var row := Find(w.rows, id).value;
    FindMeansListed(w.rows, id);
    PutFacts(w.rows, RequeuedRow(w.rows, row), id);
    InStateMembers(w.rows, Queued, other);
    var queued := InState(w.rows, Queued);
    var k :| 0 <= k < |queued| && queued[k] == other;
    LeastIsLeast(queued, k);
  }

  // ---- jobs adopted ------------------------------------------------------

  predicate Gone(job: AdoptedJob, procs: map<int, int>) {
    job.pid !in procs || procs[job.pid] != job.creation
  }

  /** An adopted job is finished, without an exit code, when its process is no longer the one adopted. */
  ghost predicate FollowedOrFinished(w: World, w': World, job: AdoptedJob, procs: map<int, int>) {
    var was, row := Find(w.rows, job.id), Find(w'.rows, job.id);
    if Gone(job, procs) then
      && job.id !in AdoptedIds(w'.adopted)
      && row == (if was.None? then None else Some(Ended(was.value, None)))
    else row == was && job.id in AdoptedIds(w'.adopted)
  }

  lemma {:induction false} ReapAdoptedEnds(w: World, id: JobId, other: JobId)
    ensures var w' := ReapAdoptedOne(w, id);
      && (other != id ==> Find(w'.rows, other) == Find(w.rows, other))
      && (other in AdoptedIds(w'.adopted) <==> other in AdoptedIds(w.adopted) && other != id)
    ensures var was := Find(w.rows, id);
      Find(ReapAdoptedOne(w, id).rows, id) == if was.None? then None else Some(Ended(was.value, None))
  {
    DropAdoptedFacts(w.adopted, {id});
    FindMeansListed(w.rows, id);
    var was := Find(w.rows, id);
    if was.Some? {
      PutFacts(w.rows, FinishedRow(was.value, None), id);
      PutFacts(w.rows, FinishedRow(was.value, None), other);
    }
  }

  lemma {:induction false} ReapedAdoptedSoFar(w: World, procs: map<int, int>, k: nat, i: nat)
    requires AdoptedDiffer(w.adopted) && k <= |w.adopted| && i < |w.adopted|
    ensures var w', job := ReapedAdoptedTo(w, w.adopted, procs, k), w.adopted[i];
      if i < k then FollowedOrFinished(w, w', job, procs)
      else Find(w'.rows, job.id) == Find(w.rows, job.id) && job.id in AdoptedIds(w'.adopted)
  {
    if k == 0 {
      AdoptedIsListed(w.adopted, i);
    } else {
      ReapedAdoptedSoFar(w, procs, k - 1, i);
      var before := ReapedAdoptedTo(w, w.adopted, procs, k - 1);
      assert i != k - 1 ==> w.adopted[i].id != w.adopted[k - 1].id;
      ReapAdoptedEnds(before, w.adopted[k - 1].id, w.adopted[i].id);
    }
  }

  lemma {:induction false} AdoptedEndExactlyWhenGone(w: World, procs: map<int, int>, i: nat)
    requires AdoptedDiffer(w.adopted) && i < |w.adopted|
    ensures FollowedOrFinished(w, ReapedAdoptedTo(w, w.adopted, procs, |w.adopted|), w.adopted[i], procs)
  {
    ReapedAdoptedSoFar(w, procs, |w.adopted|, i);
  }

  // ---- jobs ended otherwise ----------------------------------------------

  /** A cancelled job that nobody here launched is finished with -1; one that ends elsewhere with the code reported
      from there; a waiting one withdrawn keeps everything but its state. Other rows stay as they are. */
  lemma {:induction false} OtherEndingsAreRecorded(m: Runs.Machine, ev: Runs.Event, fix: Runs.Fixture, other: JobId)
    requires Runs.Possible(m, ev, fix) && (ev.KillAdopted? || ev.RemoteDone? || ev.Withdraw?)
    ensures var was, row := Find(m.w.rows, ev.id), Find(Runs.After(m, ev, fix).w.rows, ev.id);
      row == match ev
        case KillAdopted(_) => Some(Ended(was.value, Some(-1)))
        case RemoteDone(_, exit) => Some(Ended(was.value, exit))
        case Withdraw(_) => if was.Some? && was.value.state == Queued then Some(was.value.(state := Removed)) else was
        case _ => was
    ensures other != ev.id ==> Find(Runs.After(m, ev, fix).w.rows, other) == Find(m.w.rows, other)
  {
    var was := Find(m.w.rows, ev.id);
    FindMeansListed(m.w.rows, ev.id);
    match ev
    case KillAdopted(id) => Rewritten(m.w.rows, FinishedRow(was.value, Some(-1)), other);
    case RemoteDone(id, exit) => Rewritten(m.w.rows, FinishedRow(was.value, exit), other);
    case Withdraw(id) =>
      if was.Some? {
        Rewritten(m.w.rows, was.value.(state := Removed), other);
      }
    case _ =>
  }

  lemma {:induction false} Rewritten(rows: seq<Row>, row: Row, other: JobId)
    ensures Find(Put(rows, row), row.id) == Some(row)
    ensures other != row.id ==> Find(Put(rows, row), other) == Find(rows, other)
  {
    PutFacts(rows, row, row.id);
    PutFacts(rows, row, other);
  }
}
