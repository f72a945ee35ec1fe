/** Repairing job rows against queue truth, and when repairing is done. */
module Reconcile {
  import opened Wrappers
  import opened QueueRows
  import opened Jobs

  /** A queue row as listed; `owner` is the job its label names. */
  datatype BackendJob = BackendJob(
    id: int, owner: Option<JobId>, state: BackendState, exit: Option<int>, node: Option<NodeName>,
    startedAt: Option<real>, finishedAt: Option<real>, pid: Option<int>)

  /** What one pass can see: the queue's rows, which of them cannot be read, whether they can be listed. */
  datatype View = View(backend: seq<BackendJob>, unreadable: set<int>, listable: bool, now: real)

  const STALE_AFTER := 300.0

  function BackendOf(backend: seq<BackendJob>, id: int): Option<BackendJob> {
    if backend == [] then None
    else if backend[0].id == id then Some(backend[0])
    else BackendOf(backend[1..], id)
  }

  /** The queue row labelled with this job; the last one listed when several are. */
  function LabelledBy(backend: seq<BackendJob>, job: JobId): Option<int> {
    if backend == [] then None
    else
      var last := backend[|backend| - 1];
      if last.owner == Some(job) then Some(last.id) else LabelledBy(backend[..|backend| - 1], job)
  }

  function Target(found: Option<BackendJob>): JobState {
    if found.None? then MapBackendState(None, None) else MapBackendState(Some(found.value.state), found.value.exit)
  }

  /** What is written beside a state taken from the queue. */
  function Details(row: JobRow, found: Option<BackendJob>, target: JobState, now: real): Patch {
    if target == JobState.Running && found.Some? then
      NoChange().(
        startedAt := if row.startedAt.None? then IfAny(found.value.startedAt) else Keep,
        pid := IfAny(found.value.pid))
    else if target.Terminal() then
      var ended := if found.Some? && found.value.finishedAt.Some? then found.value.finishedAt else Some(now);
      NoChange().(finishedAt := To(if row.finishedAt.Some? then row.finishedAt else ended),
                  exit := if found.Some? && row.exit.None? then IfAny(found.value.exit) else Keep)
    else NoChange()
  }

  /** Where a row runs is recorded whatever becomes of its state. */
  function NodeRecorded(row: JobRow, found: Option<BackendJob>): JobRow {
    if found.Some? && found.value.node.Some? && found.value.node != row.node
    then row.(node := found.value.node) else row
  }

  predicate Stale(view: View, row: JobRow) {
    row.state == Preparing && view.now - row.createdAt > STALE_AFTER
  }

  /** One row aligned with the queue. */
  function ReconcileRow(view: View, row: JobRow): JobRow {
    if row.state.Terminal() then row
    else if row.backendId.None? then
      if Stale(view, row) then row.(state := Lost, finishedAt := Some(view.now)) else row
    else if row.backendId.value in view.unreadable then row
    else
      var found := BackendOf(view.backend, row.backendId.value);
      var target := Target(found);
      var placed := NodeRecorded(row, found);
      if target == row.state || !CanTransition(row.state, target) then placed
      else Apply(placed, Details(row, found, target, view.now).(state := Some(target)))
  }

  /** A row whose queue id was never written, found again by its label. */
  function RecoverRow(view: View, row: JobRow): JobRow {
    if row.state == Preparing && row.backendId.None? && view.listable && LabelledBy(view.backend, row.id).Some?
    then row.(backendId := LabelledBy(view.backend, row.id), state := JobState.Queued)
    else row
  }

  function PassRow(view: View, row: JobRow): JobRow {
    RecoverRow(view, ReconcileRow(view, row))
  }

  /** One pass over the whole table. */
  function Pass(view: View, jobs: seq<JobRow>): (r: seq<JobRow>)
    ensures |r| == |jobs|
    ensures forall k :: 0 <= k < |r| ==> r[k] == PassRow(view, jobs[k])
  {
    seq(|jobs|, k requires 0 <= k < |jobs| => PassRow(view, jobs[k]))
  }

  // ---- when there is nothing left to do ----------------------------------

  /** A move the state machine refuses: exactly a row still being prepared whose queue row already runs
      or has succeeded. */
  predicate Blocked(row: JobRow, target: JobState) {
    row.state == Preparing && target in {JobState.Running, Succeeded}
  }

  predicate PlaceKnown(row: JobRow, found: Option<BackendJob>) {
    found.None? || found.value.node.None? || found.value.node == row.node
  }

  /** Nothing is left to do for this row: it has ended; or it has no queue row to compare with, is not a
      stale preparation and cannot be found by label; or its queue row cannot be read; or it says what
      its queue row says, or may not. */
  predicate Settled(view: View, row: JobRow) {
    if row.state.Terminal() then true
    else if row.backendId.None? then
      row.state != Preparing
      || (!Stale(view, row) && (!view.listable || LabelledBy(view.backend, row.id).None?))
    else if row.backendId.value in view.unreadable then true
    else
      var found := BackendOf(view.backend, row.backendId.value);
      PlaceKnown(row, found) && (row.state == Target(found) || Blocked(row, Target(found)))
  }

  lemma {:induction false} BlockedExactlyWhenRefused(row: JobRow, found: Option<BackendJob>)
    requires !row.state.Terminal()
    ensures Blocked(row, Target(found)) <==> !CanTransition(row.state, Target(found))
  {
  }

  /** A pass leaves a row alone exactly when nothing is left to do for it. */
  lemma {:induction false} UnchangedExactlyWhenSettled(view: View, row: JobRow)
    ensures PassRow(view, row) == row <==> Settled(view, row)
  {
    if !row.state.Terminal() && row.backendId.Some? {
      BlockedExactlyWhenRefused(row, BackendOf(view.backend, row.backendId.value));
    }
  }

  /** Reading an enqueued row once settles it. */
  lemma {:induction false} EnqueuedRowSettles(view: View, row: JobRow)
    requires row.backendId.Some?
    ensures PassRow(view, row).backendId == row.backendId && Settled(view, PassRow(view, row))
  {
    if !row.state.Terminal() && row.backendId.value !in view.unreadable {
      BlockedExactlyWhenRefused(row, BackendOf(view.backend, row.backendId.value));
    }
  }

  /** One pass is enough for every row but one re-attached by label, which needs one more. */
  lemma {:induction false} TwoPassesSettle(view: View, row: JobRow)
    ensures Settled(view, PassRow(view, PassRow(view, row)))
    ensures PassRow(view, row).backendId == row.backendId ==> Settled(view, PassRow(view, row))
  {
    if row.backendId.Some? {
      EnqueuedRowSettles(view, row);
      EnqueuedRowSettles(view, PassRow(view, row));
    } else if PassRow(view, row).backendId.Some? {
      EnqueuedRowSettles(view, PassRow(view, row));
    }
  }

  /** Against an unchanged queue and clock, reconciliation reaches a fixed point in at most two passes. */
  lemma {:induction false} PassesReachAFixedPoint(view: View, jobs: seq<JobRow>)
    ensures var twice := Pass(view, Pass(view, jobs));
      Pass(view, twice) == twice && forall k :: 0 <= k < |twice| ==> Settled(view, twice[k])
  {
    var twice := Pass(view, Pass(view, jobs));
    forall k | 0 <= k < |twice| ensures Settled(view, twice[k]) && Pass(view, twice)[k] == twice[k] {
      TwoPassesSettle(view, jobs[k]);
      UnchangedExactlyWhenSettled(view, twice[k]);
    }
  }

  /** A pass makes no move the state machine forbids and undoes no ending. */
  lemma {:induction false} PassObeysTheTable(view: View, row: JobRow)
    ensures row.state.Terminal() ==> PassRow(view, row) == row
    ensures CanTransition(row.state, PassRow(view, row).state)
    ensures PassRow(view, row).id == row.id
  {
  }

  // ---- what a row says afterwards ----------------------------------------

  /** The first queue row listed under an id, if there is any. */
  ghost predicate IsListed(backend: seq<BackendJob>, id: int, found: Option<BackendJob>) {
    if found.None? then forall k :: 0 <= k < |backend| ==> backend[k].id != id
    else exists k :: 0 <= k < |backend| && FirstListed(backend, id, k) && backend[k] == found.value
  }

  ghost predicate FirstListed(backend: seq<BackendJob>, id: int, k: nat)
    requires k < |backend|
  {
    backend[k].id == id && forall j :: 0 <= j < k ==> backend[j].id != id
  }

  lemma {:induction false} BackendIsListed(backend: seq<BackendJob>, id: int)
    ensures IsListed(backend, id, BackendOf(backend, id))
  {
    if backend != [] {
      BackendIsListed(backend[1..], id);
      forall k | 0 < k < |backend| ensures backend[k] == backend[1..][k - 1] {
      }
      var found := BackendOf(backend[1..], id);
      if backend[0].id == id {
        assert FirstListed(backend, id, 0);
      } else if found.Some? {
        var k :| 0 <= k < |backend[1..]| && FirstListed(backend[1..], id, k) && backend[1..][k] == found.value;
        assert FirstListed(backend, id, k + 1);
      }
    }
  }

  /** The state a live row takes: lost without a queue row, cancelled when that was removed, otherwise waiting,
      running, succeeded for an exit code of zero, or failed. A row still being prepared does not become running or
      succeeded. */
  predicate SaysState(row: JobRow, found: Option<BackendJob>, after: JobRow) {
    match found
    case None => after.state == Lost
    case Some(b) =>
      match b.state
      case Queued => after.state == JobState.Queued
      case Running => after.state == if row.state == Preparing then Preparing else JobState.Running
      case Removed => after.state == Cancelled
      case Finished =>
        after.state == if b.exit != Some(0) then Failed else if row.state == Preparing then Preparing else Succeeded
  }

  /** The columns that go with it. A start is recorded once, and so are an end and an exit code; where the queue
      gives no end it is now. */
  predicate SaysWhen(row: JobRow, found: Option<BackendJob>, after: JobRow, now: real) {
    var moved := after.state != row.state;
    var given := found.GetOr<BackendJob>(
      BackendJob(0, None, BackendState.Queued, None, None, None, None, None));
    && after.id == row.id && after.backendId == row.backendId && after.createdAt == row.createdAt
    && after.node == (if given.node.Some? then given.node else row.node)
    && after.startedAt ==
         (if moved && after.state == JobState.Running && row.startedAt.None? then given.startedAt else row.startedAt)
    && after.pid == (if moved && after.state == JobState.Running && given.pid.Some? then given.pid else row.pid)
    && (if moved && after.state in {Succeeded, Failed, Cancelled, Lost} then
          && after.finishedAt == (if row.finishedAt.Some? then row.finishedAt
                                  else if given.finishedAt.Some? then given.finishedAt else Some(now))
          && after.exit == (if row.exit.Some? then row.exit else given.exit)
        else after.finishedAt == row.finishedAt && after.exit == row.exit)
  }

  /** A live row with a readable queue row, or none, says what the queue says. */
  lemma {:induction false} RowSaysWhatTheQueueSays(view: View, row: JobRow)
    requires row.state in {Preparing, JobState.Queued, JobState.Running}
    requires row.backendId.Some? && row.backendId.value !in view.unreadable
    ensures exists found ::
      && IsListed(view.backend, row.backendId.value, found)
      && SaysState(row, found, PassRow(view, row)) && SaysWhen(row, found, PassRow(view, row), view.now)
  {
    var found := BackendOf(view.backend, row.backendId.value);
    BackendIsListed(view.backend, row.backendId.value);
    assert PassRow(view, row) == ReconcileRow(view, row);
    SaysItsTarget(view, row, found);
  }

  lemma {:induction false} SaysItsTarget(view: View, row: JobRow, found: Option<BackendJob>)
    requires row.state in {Preparing, JobState.Queued, JobState.Running}
    requires row.backendId.Some? && row.backendId.value !in view.unreadable
    requires found == BackendOf(view.backend, row.backendId.value)
    ensures SaysState(row, found, ReconcileRow(view, row)) && SaysWhen(row, found, ReconcileRow(view, row), view.now)
  {
  }

  /** The last queue row listed with a job's label. */
  ghost predicate LastLabelled(backend: seq<BackendJob>, job: JobId, k: nat)
    requires k < |backend|
  {
    backend[k].owner == Some(job) && forall j :: k < j < |backend| ==> backend[j].owner != Some(job)
  }

  lemma {:induction false} LabelIsOfTheLast(backend: seq<BackendJob>, job: JobId)
    ensures LabelledBy(backend, job).None? <==> forall k :: 0 <= k < |backend| ==> backend[k].owner != Some(job)
    ensures LabelledBy(backend, job).Some? ==>
      exists k :: 0 <= k < |backend| && LastLabelled(backend, job, k) && LabelledBy(backend, job) == Some(backend[k].id)
  {
    if backend != [] {
      var n := |backend| - 1;
      LabelIsOfTheLast(backend[..n], job);
      if backend[n].owner == Some(job) {
        assert LastLabelled(backend, job, n);
      } else if LabelledBy(backend[..n], job).Some? {
        var k :| 0 <= k < n && LastLabelled(backend[..n], job, k)
          && LabelledBy(backend[..n], job) == Some(backend[..n][k].id);
        assert LastLabelled(backend, job, k);
      }
    }
  }

  /** A row without a queue id. Prepared for more than five minutes it is given up; otherwise, while being prepared,
      it takes the id of the last queue row with its label and waits; nothing else happens to it. */
  predicate FoundByLabel(view: View, row: JobRow, after: JobRow, id: Option<int>) {
    if row.state != Preparing then after == row
    else if view.now - row.createdAt > 300.0 then after == row.(state := Lost, finishedAt := Some(view.now))
    else if !view.listable || id.None? then after == row
    else after == row.(backendId := id, state := JobState.Queued)
  }

  lemma {:induction false} RowIsFoundByItsLabel(view: View, row: JobRow)
    requires row.backendId.None?
    ensures exists id: Option<int> ::
      && FoundByLabel(view, row, PassRow(view, row), id)
      && (id.None? <==> forall k :: 0 <= k < |view.backend| ==> view.backend[k].owner != Some(row.id))
      && (id.Some? ==>
            exists k :: 0 <= k < |view.backend| && LastLabelled(view.backend, row.id, k)
              && id == Some(view.backend[k].id))
  {
    var id := LabelledBy(view.backend, row.id);
    LabelIsOfTheLast(view.backend, row.id);
    assert FoundByLabel(view, row, PassRow(view, row), id);
  }

  // ---- the passes as they are made ---------------------------------------

  class Reconciler {
    const table: JobsTable

    constructor (table: JobsTable)
      ensures this.table == table
    {
      this.table := table;
    }

    /** Align row `k` with the queue. */
    method ReconcileJob(view: View, k: nat)
      requires table.Valid() && k < |table.jobs|
      modifies table
      ensures table.Valid() && table.jobs == old(table.jobs)[k := ReconcileRow(view, old(table.jobs)[k])]
    {
      var job := table.jobs[k];
      LookupAt(table.jobs, k);
      if job.state.Terminal() {
        return;
      }
      if job.backendId.None? {
        if job.state == Preparing && view.now - job.createdAt > STALE_AFTER {
          var _, _ := table.TryUpdateState(job.id, Lost, NoChange().(finishedAt := To(Some(view.now))));
        }
        return;
      }
      if job.backendId.value in view.unreadable {
        return;
      }
      var found := BackendOf(view.backend, job.backendId.value);
      if found.Some? && found.value.node.Some? && found.value.node != job.node {
        var _ := table.UpdateJob(job.id, NoChange().(node := To(found.value.node)));
      }
      assert table.jobs == old(table.jobs)[k := NodeRecorded(job, found)];
      LookupAt(table.jobs, k);
      var target := Target(found);
      if target == job.state {
        return;
      }
      var _, _ := table.TryUpdateState(job.id, target, Details(job, found, target, view.now));
      assert table.jobs == old(table.jobs)[k := ReconcileRow(view, job)];
    }

    /** Which queue row each labelled job has. */
    method IndexByLabel(backend: seq<BackendJob>) returns (byJob: map<JobId, int>)
      ensures forall job :: job in byJob <==> LabelledBy(backend, job).Some?
      ensures forall job :: job in byJob ==> LabelledBy(backend, job) == Some(byJob[job])
    {
      byJob := map[];
      for n := 0 to |backend|
        invariant forall job :: job in byJob <==> LabelledBy(backend[..n], job).Some?
        invariant forall job :: job in byJob ==> LabelledBy(backend[..n], job) == Some(byJob[job])
      {
        assert backend[..n + 1][..n] == backend[..n];
        if backend[n].owner.Some? {
          byJob := byJob[backend[n].owner.value := backend[n].id];
        }
      }
      assert backend[..|backend|] == backend;
    }

    method RecoverLostBackendIds(view: View)
      requires table.Valid()
      modifies table
      ensures table.Valid() && |table.jobs| == |old(table.jobs)|
      ensures forall k :: 0 <= k < |table.jobs| ==> table.jobs[k] == RecoverRow(view, old(table.jobs)[k])
    {
      if !view.listable {
        return;
      }
      var byJob := IndexByLabel(view.backend);
      for k := 0 to |table.jobs|
        invariant table.Valid() && |table.jobs| == |old(table.jobs)|
        invariant forall i :: 0 <= i < k ==> table.jobs[i] == RecoverRow(view, old(table.jobs)[i])
        invariant forall i :: k <= i < |table.jobs| ==> table.jobs[i] == old(table.jobs)[i]
      {
        var job := table.jobs[k];
        LookupAt(table.jobs, k);
        if job.state == Preparing && job.backendId.None? && job.id in byJob {
          var _ := table.UpdateJob(job.id, NoChange().(backendId := To(Some(byJob[job.id]))));
          LookupAt(table.jobs, k);
          var _, _ := table.TryUpdateState(job.id, JobState.Queued, NoChange());
        }
      }
    }

    /** One pass: every row aligned, then lost queue ids recovered. */
    method Reconcile(view: View)
      requires table.Valid()
      modifies table
      ensures table.Valid() && table.jobs == Pass(view, old(table.jobs))
    {
      for k := 0 to |table.jobs|
        invariant table.Valid() && |table.jobs| == |old(table.jobs)|
        invariant forall i :: 0 <= i < k ==> table.jobs[i] == ReconcileRow(view, old(table.jobs)[i])
        invariant forall i :: k <= i < |table.jobs| ==> table.jobs[i] == old(table.jobs)[i]
      {
        ReconcileJob(view, k);
      }
      RecoverLostBackendIds(view);
    }
  }
}
