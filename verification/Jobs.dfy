/** The jobs table: the state machine every process goes through, and its one transactional write. */
module Jobs {
  import opened Wrappers
  import opened QueueRows

  datatype JobState = Preparing | Queued | Running | Succeeded | Failed | Cancelled | Lost {
    predicate Terminal() {
      Succeeded? || Failed? || Cancelled? || Lost?
    }
  }

  function Allowed(from: JobState): set<JobState> {
    match from
    case Preparing => {JobState.Queued, Failed, Cancelled, Lost}
    case Queued => {JobState.Running, Succeeded, Failed, Cancelled, Lost}
    case Running => {JobState.Queued, Succeeded, Failed, Cancelled, Lost}
    case _ => {}
  }

  predicate CanTransition(from: JobState, to: JobState) {
    from == to || to in Allowed(from)
  }

  /** How far along a job is. */
  function Progress(state: JobState): nat {
    match state
    case Preparing => 0
    case Queued => 1
    case Running => 2
    case _ => 3
  }

  /** The table's shape: a terminal state is left for nothing, every legal move goes forward except
      displacement, and running is reached from waiting alone. */
  lemma {:induction false} TransitionsGoForward(from: JobState, to: JobState)
    requires CanTransition(from, to) && from != to
    ensures !from.Terminal()
    ensures Progress(to) > Progress(from) || (from == JobState.Running && to == JobState.Queued)
    ensures to == JobState.Running ==> from == JobState.Queued
    ensures to == Succeeded ==> from != Preparing
  {
  }

  /** Which moves are legal: none from an ending, none back into preparation, and a row in preparation neither
      runs nor succeeds before it has been queued. Staying put is no move. */
  lemma {:induction false} LegalMovesAre(from: JobState, to: JobState)
    ensures CanTransition(from, to) <==>
      || from == to
      || (from in {Preparing, JobState.Queued, JobState.Running} && to != Preparing
          && !(from == Preparing && to in {JobState.Running, Succeeded}))
  {
  }

  /** The single mapping from queue states to job states; no state means the queue has no such row. */
  function MapBackendState(state: Option<BackendState>, exit: Option<int>): JobState {
    if state.None? then Lost
    else match state.value
      case Queued => JobState.Queued
      case Running => JobState.Running
      case Removed => Cancelled
      case Finished => if exit == Some(0) then Succeeded else Failed
  }

  // ---- rows --------------------------------------------------------------

  datatype JobRow = JobRow(
    id: JobId, state: JobState, backendId: Option<int>, node: Option<NodeName>, createdAt: real,
    startedAt: Option<real>, finishedAt: Option<real>, pid: Option<int>, exit: Option<int>)

  /** What a write does to one column: nothing, or a new value, which may be none. */
  datatype Column<T> = Keep | To(value: Option<T>)

  datatype Patch = Patch(
    state: Option<JobState>, backendId: Column<int>, node: Column<NodeName>,
    startedAt: Column<real>, finishedAt: Column<real>, pid: Column<int>, exit: Column<int>)

  function NoChange(): Patch {
    Patch(None, Keep, Keep, Keep, Keep, Keep, Keep)
  }

  function Over<T>(column: Column<T>, was: Option<T>): Option<T> {
    if column.Keep? then was else column.value
  }

  /** A value is written, the lack of one is not. */
  function IfAny<T>(value: Option<T>): Column<T> {
    if value.Some? then To(value) else Keep
  }

  function Apply(row: JobRow, patch: Patch): JobRow {
    JobRow(row.id, patch.state.GetOr<JobState>(row.state), Over(patch.backendId, row.backendId),
           Over(patch.node, row.node), row.createdAt, Over(patch.startedAt, row.startedAt),
           Over(patch.finishedAt, row.finishedAt), Over(patch.pid, row.pid), Over(patch.exit, row.exit))
  }

  datatype WriteResult = Written(row: JobRow) | NoSuchJob | InvalidTransition(from: JobState, to: JobState)

  function ResultOf(row: JobRow, patch: Patch): WriteResult {
    if patch.state.Some? && !CanTransition(row.state, patch.state.value)
    then InvalidTransition(row.state, patch.state.value)
    else Written(Apply(row, patch))
  }

  // ---- the table ---------------------------------------------------------

  predicate Differ(jobs: seq<JobRow>) {
    forall i, j :: 0 <= i < j < |jobs| ==> jobs[i].id != jobs[j].id
  }

  function Lookup(jobs: seq<JobRow>, id: JobId): Option<JobRow> {
    if jobs == [] then None else if jobs[0].id == id then Some(jobs[0]) else Lookup(jobs[1..], id)
  }

  lemma {:induction false} LookupAt(jobs: seq<JobRow>, k: nat)
    requires k < |jobs| && Differ(jobs)
    ensures Lookup(jobs, jobs[k].id) == Some(jobs[k])
  {
    if k > 0 {
      assert jobs[0].id != jobs[k].id;
      LookupAt(jobs[1..], k - 1);
    }
  }

  lemma {:induction false} LookupMeansListed(jobs: seq<JobRow>, id: JobId)
    ensures Lookup(jobs, id).Some? ==> Lookup(jobs, id).value in jobs && Lookup(jobs, id).value.id == id
    ensures Lookup(jobs, id).None? ==> forall r :: r in jobs ==> r.id != id
  {
    if jobs != [] && jobs[0].id != id {
      LookupMeansListed(jobs[1..], id);
      assert jobs == [jobs[0]] + jobs[1..];
    }
  }

  class JobsTable {
    var jobs: seq<JobRow>

    ghost predicate Valid()
      reads this
    {
      Differ(jobs)
    }

    constructor ()
      ensures Valid() && jobs == []
    {
      jobs := [];
    }

    /** One transaction: find the row, check the move, overwrite the columns. A refused write changes
        nothing, a granted one changes that row alone. */
    method UpdateJob(id: JobId, patch: Patch) returns (result: WriteResult)
      requires Valid()
      modifies this
      ensures Valid() && |jobs| == |old(jobs)|
      ensures result == match Lookup(old(jobs), id)
        case None => NoSuchJob
        case Some(row) => ResultOf(row, patch)
      ensures forall i :: 0 <= i < |jobs| ==>
        jobs[i] == if result.Written? && old(jobs)[i].id == id then result.row else old(jobs)[i]
    {
      for k := 0 to |jobs|
        invariant jobs == old(jobs)
        invariant forall i :: 0 <= i < k ==> jobs[i].id != id
      {
        if jobs[k].id == id {
          LookupAt(jobs, k);
          var row := jobs[k];
          if patch.state.Some? && !CanTransition(row.state, patch.state.value) {
            return InvalidTransition(row.state, patch.state.value);
          }
          jobs := jobs[k := Apply(row, patch)];
          return Written(Apply(row, patch));
        }
      }
      LookupMeansListed(jobs, id);
      return NoSuchJob;
    }

    /** The state change the runner and reconciliation use: a refused move is not an error to them, a
        missing row is. */
    method TryUpdateState(id: JobId, target: JobState, patch: Patch) returns (row: Option<JobRow>, missing: bool)
      requires Valid()
      modifies this
      ensures Valid() && |jobs| == |old(jobs)|
      ensures missing == Lookup(old(jobs), id).None?
      ensures row == if !missing && CanTransition(Lookup(old(jobs), id).value.state, target)
                     then Some(Apply(Lookup(old(jobs), id).value, patch.(state := Some(target)))) else None
      ensures forall i :: 0 <= i < |jobs| ==>
        jobs[i] == if row.Some? && old(jobs)[i].id == id then row.value else old(jobs)[i]
    {
      var result := UpdateJob(id, patch.(state := Some(target)));
      row := if result.Written? then Some(result.row) else None;
      missing := result.NoSuchJob?;
    }
  }
}
