/** The runner as a program: each method is one of its reads or writes of the jobs table, proved to be
    the step of the same name in the life of its job. Between two methods any other process may act. */
module RunnerProcess {
  import opened Wrappers
  import opened QueueRows
  import opened Jobs
  import opened Lifecycle

  class RunnerProcess {
    const table: JobsTable
    const job: JobId
    var pc: Runner

    constructor (table: JobsTable, job: JobId)
      ensures this.table == table && this.job == job && pc == Launched
    {
      this.table, this.job, pc := table, job, Launched;
    }

    function Row(): JobRow
      reads this, table
      requires Lookup(table.jobs, job).Some?
    {
      Lookup(table.jobs, job).value
    }

    function State(): JobState
      reads this, table
      requires Lookup(table.jobs, job).Some?
    {
      Row().state
    }

    /** `s` is the life of this runner's job as the table and this process show it now. */
    ghost predicate Lives(s: Life, r: RunnerId)
      reads this, table
    {
      table.Valid() && Lookup(table.jobs, job).Some? && State() == s.job && At(s, r, pc)
    }

    /** Only this job's row has changed. */
    twostate predicate OthersUntouched()
      reads this, table
    {
      && |table.jobs| == |old(table.jobs)|
      && forall i :: 0 <= i < |table.jobs| ==>
           table.jobs[i].id == old(table.jobs)[i].id
           && (table.jobs[i].id != job ==> table.jobs[i] == old(table.jobs)[i])
    }

    method Write(target: JobState, patch: Patch) returns (granted: bool)
      requires table.Valid() && Lookup(table.jobs, job).Some?
      modifies table
      ensures table.Valid() && Lookup(table.jobs, job).Some? && OthersUntouched()
      ensures granted == CanTransition(old(State()), target)
      ensures Row() == if granted then Apply(old(Row()), patch.(state := Some(target))) else old(Row())
    {
      LookupMeansListed(table.jobs, job);
      var k :| 0 <= k < |table.jobs| && table.jobs[k] == Lookup(table.jobs, job).value;
      var row, _ := table.TryUpdateState(job, target, patch);
      granted := row.Some?;
      LookupAt(table.jobs, k);
    }

    /** Looks at the row before anything else, and gives up when there is none or when it has ended. */
    method Read(ghost s: Life, ghost r: RunnerId)
      requires table.Valid() && pc.Launched?
      modifies this`pc
      ensures pc == match Lookup(table.jobs, job)
        case None => Exited(127)
        case Some(row) =>
          if row.state == Succeeded then Exited(0)
          else if row.state in {Failed, Cancelled, Lost} then Exited(1) else Accepted
      ensures old(Lives(s, r)) ==> Lives(After(s, Event.Read(r)), r)
    {
      var row := Lookup(table.jobs, job);
      if row.None? {
        pc := Exited(127);
      } else if row.value.state.Terminal() {
        pc := Exited(if row.value.state == Succeeded then 0 else 1);
      } else {
        pc := Accepted;
      }
    }

    /** The job's row is `was`, failed now unless it had ended otherwise. */
    predicate FailedFrom(was: JobRow, now: real)
      reads this, table
      requires Lookup(table.jobs, job).Some?
    {
      Row() == if was.state in {Succeeded, Cancelled, Lost} then was else was.(state := Failed, finishedAt := Some(now))
    }

    method Reject(now: real, ghost s: Life, ghost r: RunnerId)
      requires Lives(s, r) && pc.Accepted?
      modifies this`pc, table
      ensures Lives(After(s, Event.Reject(r)), r) && OthersUntouched()
      ensures FailedFrom(old(Row()), now) && pc == Exited(127)
    {
      var _ := Write(Failed, NoChange().(finishedAt := To(Some(now))));
      pc := Exited(127);
    }

    /** Record RUNNING, or do not start. */
    method Commit(pid: int, now: real, ghost s: Life, ghost r: RunnerId)
      requires Lives(s, r) && pc.Accepted?
      modifies this`pc, table
      ensures Lives(After(s, Event.Commit(r)), r) && OthersUntouched()
      ensures if old(State()) !in {JobState.Queued, JobState.Running} then Row() == old(Row()) && pc == Exited(1)
        else
          && Row() == old(Row()).(state := JobState.Running, startedAt := Some(now), pid := Some(pid))
          && pc == Committed
    {
      var granted := Write(JobState.Running, NoChange().(startedAt := To(Some(now)), pid := To(Some(pid))));
      pc := if granted then Committed else Exited(1);
    }

    method Spawn(ok: bool, now: real, ghost s: Life, ghost r: RunnerId)
      requires Lives(s, r) && pc.Committed?
      modifies this`pc, table
      ensures Lives(After(s, Event.Spawn(r, ok)), r) && OthersUntouched()
      ensures if ok then Row() == old(Row()) && pc == Executing else FailedFrom(old(Row()), now) && pc == Exited(127)
    {
      if ok {
        pc := Executing;
        return;
      }
      var _ := Write(Failed, NoChange().(finishedAt := To(Some(now))));
      pc := Exited(127);
    }

    method CommandEnds(code: int, preempted: bool, cancelled: bool, ghost s: Life, ghost r: RunnerId)
      requires Lives(s, r) && pc.Executing?
      modifies this`pc
      ensures Lives(After(s, Event.CommandEnds(r, code, preempted, cancelled)), r)
    {
      pc := Ended(code, preempted, cancelled);
    }

    method ReadBack(ghost s: Life, ghost r: RunnerId)
      requires Lives(s, r) && pc.Ended?
      modifies this`pc
      ensures Lives(After(s, Event.ReadBack(r)), r)
    {
      pc := Settling(pc.code, pc.preempted, pc.cancelled, State());
    }

    /** The last write. A displacement wins unless the row had ended when read back; after it come the row's
        own ending, a cancellation, and the exit code. */
    method Settle(now: real, ghost s: Life, ghost r: RunnerId)
      requires Lives(s, r) && pc.Settling?
      modifies this`pc, table
      ensures Lives(After(s, Event.Settle(r)), r) && OthersUntouched()
      ensures old(State()) in {Succeeded, Failed, Cancelled, Lost} ==> State() == old(State())
      ensures {old(pc).seen, old(State())} <= {JobState.Queued, JobState.Running} ==>
        Row() == if old(pc).preempted
                 then old(Row()).(state := JobState.Queued, startedAt := None, pid := None, exit := None)
                 else old(Row()).(state := if old(pc).cancelled then Cancelled
                                           else if old(pc).code == 0 then Succeeded else Failed,
                                  exit := Some(old(pc).code), finishedAt := Some(now))
      ensures old(pc).seen in {Succeeded, Failed, Cancelled, Lost} && old(State()) == old(pc).seen ==>
        Row() == old(Row()).(exit := Some(old(pc).code), finishedAt := Some(now))
      ensures pc == Exited(old(pc).code)
    {
      var code := pc.code;
      if pc.preempted && !pc.seen.Terminal() {
        var _ := Write(JobState.Queued, NoChange().(startedAt := To(None), pid := To(None), exit := To(None)));
        pc := Exited(code);
        return;
      }
      var final;
      if pc.seen.Terminal() {
        final := pc.seen;
      } else if pc.cancelled {
        final := Cancelled;
      } else if code == 0 {
        final := Succeeded;
      } else {
        final := Failed;
      }
      var _ := Write(final, NoChange().(exit := To(Some(code)), finishedAt := To(Some(now))));
      pc := Exited(code);
    }
  }
}
