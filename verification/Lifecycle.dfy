/** One job's life across processes: submitter, dispatcher, runners, cancellers and reconcilers step in
    any order over two stores, the job's row and its queue row.

    Each step reads or writes one store once, as the processes do. What a process decided from an old
    reading is carried until it is written, however much later that is. */
module Lifecycle {
  import opened Wrappers
  import opened QueueRows
  import opened Jobs

  type RunnerId = int
  type ClientId = int

  /** Where one runner process is in its own program. */
  datatype Runner =
    | Launched                                    // spawned by the dispatcher, has read nothing
    | Accepted                                    // has read a row that was not terminal
    | Committed                                   // its own RUNNING write was granted
    | Executing                                   // the command is running
    | Ended(code: int, preempted: bool, cancelled: bool)
    | Settling(code: int, preempted: bool, cancelled: bool, seen: JobState)
    | Exited(code: int)
    | Reaped                                      // its exit has been seen by the dispatcher
  {
    /** It can still start the command, but has not committed to. */
    predicate Undecided() {
      Launched? || Accepted?
    }

    predicate Started() {
      Executing? || Ended? || Settling?
    }
  }

  datatype QueueRow = QueueRow(state: BackendState, exit: Option<int>, preempt: bool, cancel: bool)

  /** `pending` holds writes other processes have decided on and not yet made. The last three are
      history: whose RUNNING write was granted, who started the command, whether it ever exited zero. */
  datatype Life = Life(
    job: JobState, queue: Option<QueueRow>, runners: map<RunnerId, Runner>, pending: map<ClientId, JobState>,
    commits: set<RunnerId>, starts: set<RunnerId>, exitedZero: bool)

  datatype Event =
    | Enqueue                                   // the submitter adds the queue row
    | RecordQueued                              // and then records that it did
    | Claim(r: RunnerId)                        // the dispatcher claims the queue row and launches a runner
    | Read(r: RunnerId)
    | Reject(r: RunnerId)                       // no usable command or directory
    | Commit(r: RunnerId)
    | Spawn(r: RunnerId, ok: bool)
    | CommandEnds(r: RunnerId, code: int, preempted: bool, cancelled: bool)
    | ReadBack(r: RunnerId)
    | Settle(r: RunnerId)
    | Reap(r: RunnerId)                         // the dispatcher sees the runner's exit code
    | LoseTrack                                 // a new dispatcher finds no process for the row
    | Die(r: RunnerId, code: int)               // the runner is killed, or crashes, wherever it is
    | LaunchFails                               // the dispatcher cannot launch a runner and finishes the row
    | KillOrphan                                // a cancelled job nobody follows is killed and its row finished
    | AskPreempt
    | AskCancel
    | RemoveQueued
    | DecideCancel(c: ClientId)
    | DecideReconcile(c: ClientId)              // reads both stores
    | DecideRecover(c: ClientId)                // a row that never recorded its queue id
    | DecideFail(c: ClientId)                   // a submission that failed
    | DecideLost(c: ClientId)                   // a submission that was never completed
    | Write(c: ClientId)

  function MapBackend(row: Option<QueueRow>): JobState {
    if row.None? then MapBackendState(None, None) else MapBackendState(Some(row.value.state), row.value.exit)
  }

  function TryUpdate(job: JobState, target: JobState): JobState {
    if CanTransition(job, target) then target else job
  }

  /** What a runner records once its command has ended. */
  function Outcome(runner: Runner): JobState
    requires runner.Settling?
  {
    if runner.preempted && !runner.seen.Terminal() then JobState.Queued
    else if runner.seen.Terminal() then runner.seen
    else if runner.cancelled then Cancelled
    else if runner.code == 0 then Succeeded
    else Failed
  }

  predicate At(s: Life, r: RunnerId, runner: Runner) {
    r in s.runners && s.runners[r] == runner
  }

  predicate InQueue(s: Life, state: BackendState) {
    s.queue.Some? && s.queue.value.state == state
  }

  /** What each process needs to find, or to be, before it can take the step. */
  predicate Possible(s: Life, ev: Event) {
    match ev
    case Enqueue => s.job == Preparing && s.queue.None?
    case RecordQueued => s.queue.Some?
    case Claim(r) => InQueue(s, BackendState.Queued) && r !in s.runners
    case Read(r) => At(s, r, Launched)
    case Reject(r) => At(s, r, Accepted)
    case Commit(r) => At(s, r, Accepted)
    case Spawn(r, _) => At(s, r, Committed)
    case CommandEnds(r, _, _, _) => At(s, r, Executing)
    case ReadBack(r) => r in s.runners && s.runners[r].Ended?
    case Settle(r) => r in s.runners && s.runners[r].Settling?
    case Reap(r) => r in s.runners && s.runners[r].Exited? && s.queue.Some?
    case LoseTrack => InQueue(s, BackendState.Running)
    case Die(r, code) => r in s.runners && !s.runners[r].Exited? && !s.runners[r].Reaped? && code != 0
    case LaunchFails => InQueue(s, BackendState.Queued) || InQueue(s, BackendState.Removed)
    case KillOrphan => InQueue(s, BackendState.Running)
    case AskPreempt => InQueue(s, BackendState.Running)
    case AskCancel => InQueue(s, BackendState.Queued) || InQueue(s, BackendState.Running)
    case RemoveQueued => InQueue(s, BackendState.Queued)
    case DecideCancel(c) => c !in s.pending && !s.job.Terminal()
    case DecideReconcile(c) => c !in s.pending && !s.job.Terminal()
    case DecideRecover(c) => c !in s.pending && s.job == Preparing && s.queue.Some?
    case DecideFail(c) => c !in s.pending
    case DecideLost(c) => c !in s.pending && s.job == Preparing
    case Write(c) => c in s.pending
  }

  function Move(s: Life, r: RunnerId, runner: Runner): Life {
    s.(runners := s.runners[r := runner])
  }

  function Decided(s: Life, c: ClientId, target: JobState): Life {
    s.(pending := s.pending[c := target])
  }

  /** Finishing looks at no state: whatever the queue row was, it is finished. */
  function Finish(s: Life, exit: Option<int>): Life
    requires s.queue.Some?
  {
    s.(queue := Some(s.queue.value.(state := BackendState.Finished, exit := exit)))
  }

  function After(s: Life, ev: Event): Life
    requires Possible(s, ev)
  {
    match ev
    case Enqueue => s.(queue := Some(QueueRow(BackendState.Queued, None, false, false)))
    case RecordQueued => s.(job := TryUpdate(s.job, JobState.Queued))
    case Claim(r) => Move(s, r, Launched).(queue := Some(s.queue.value.(state := BackendState.Running)))
    case Read(r) =>
      if s.job.Terminal() then Move(s, r, Exited(if s.job == Succeeded then 0 else 1)) else Move(s, r, Accepted)
    case Reject(r) => Move(s, r, Exited(127)).(job := TryUpdate(s.job, Failed))
    case Commit(r) =>
      if CanTransition(s.job, JobState.Running)
      then Move(s, r, Committed).(job := JobState.Running, commits := s.commits + {r})
      else Move(s, r, Exited(1))
    case Spawn(r, ok) =>
      if ok then Move(s, r, Executing).(starts := s.starts + {r})
      else Move(s, r, Exited(127)).(job := TryUpdate(s.job, Failed))
    case CommandEnds(r, code, preempted, cancelled) =>
      Move(s, r, Ended(code, preempted, cancelled)).(exitedZero := s.exitedZero || code == 0)
    case ReadBack(r) =>
      Move(s, r, Settling(s.runners[r].code, s.runners[r].preempted, s.runners[r].cancelled, s.job))
    case Settle(r) => Move(s, r, Exited(s.runners[r].code)).(job := TryUpdate(s.job, Outcome(s.runners[r])))
    case Reap(r) =>
      if s.queue.value.preempt
      then Move(s, r, Reaped).(queue := Some(s.queue.value.(state := BackendState.Queued, preempt := false)))
      else Finish(Move(s, r, Reaped), Some(s.runners[r].code))
    case LoseTrack => Finish(s, None)
    case Die(r, code) => Move(s, r, Exited(code))
    case LaunchFails => Finish(s, Some(127))
    case KillOrphan => Finish(s, Some(-1))
    case AskPreempt => s.(queue := Some(s.queue.value.(preempt := true)))
    case AskCancel => s.(queue := Some(s.queue.value.(cancel := true)))
    case RemoveQueued => s.(queue := Some(s.queue.value.(state := BackendState.Removed)))
    case DecideCancel(c) => Decided(s, c, Cancelled)
    case DecideReconcile(c) => Decided(s, c, MapBackend(s.queue))
    case DecideRecover(c) => Decided(s, c, JobState.Queued)
    case DecideFail(c) => Decided(s, c, Failed)
    case DecideLost(c) => Decided(s, c, Lost)
    case Write(c) => s.(job := TryUpdate(s.job, s.pending[c]), pending := s.pending - {c})
  }

  function Born(): Life {
    Life(Preparing, None, map[], map[], {}, {}, false)
  }

  // ---- runs --------------------------------------------------------------

  predicate Steps(s: Life, ev: Event, s': Life) {
    Possible(s, ev) && s' == After(s, ev)
  }

  ghost predicate Run(ss: seq<Life>, evs: seq<Event>) {
    && |ss| == |evs| + 1
    && forall k :: 0 <= k < |evs| ==> StepAt(ss, evs, k)
  }

  /** Event `k` is a step from life `k` to the next. */
  predicate StepAt(ss: seq<Life>, evs: seq<Event>, k: nat)
    requires k < |evs| && |ss| == |evs| + 1
  {
    Steps(ss[k], evs[k], ss[k + 1])
  }

  /** A terminal row never changes state again, whoever writes and however stale their reading. */
  lemma {:induction false} TerminalIsForever(ss: seq<Life>, evs: seq<Event>, i: nat, j: nat)
    requires Run(ss, evs) && i <= j <= |evs| && ss[i].job.Terminal()
    ensures ss[j].job == ss[i].job
  {
    if i < j {
      TerminalIsForever(ss, evs, i, j - 1);
      assert StepAt(ss, evs, j - 1);
    }
  }

  /** What every step keeps about starting: whoever started had committed, and whoever is past the commit
      did so. */
  ghost predicate Owned(s: Life) {
    && s.starts <= s.commits
    && (forall r :: r in s.commits ==> r in s.runners)
    && (forall r :: r in s.runners ==> OwnedBy(s, r))
  }

  predicate OwnedBy(s: Life, r: RunnerId)
    requires r in s.runners
  {
    && (s.runners[r].Committed? || s.runners[r].Started() ==> r in s.commits)
    && (s.runners[r].Started() ==> r in s.starts)
    && (s.runners[r].Undecided() ==> r !in s.commits)
  }

  lemma {:induction false} StepKeepsOwned(s: Life, ev: Event, s': Life)
    requires Owned(s) && Steps(s, ev, s')
    ensures Owned(s')
  {
    forall r | r in s'.runners ensures OwnedBy(s', r) {
      assert r in s.runners ==> OwnedBy(s, r);
      RunnerStaysOwned(s, ev, s', r);
    }
    CommittersAreRunners(s, ev, s');
  }

  lemma {:induction false} RunnerStaysOwned(s: Life, ev: Event, s': Life, r: RunnerId)
    requires Steps(s, ev, s') && r in s'.runners && s.starts <= s.commits
    requires if r in s.runners then OwnedBy(s, r) else r !in s.commits
    ensures OwnedBy(s', r)
  {
  }

  lemma {:induction false} CommittersAreRunners(s: Life, ev: Event, s': Life)
    requires Owned(s) && Steps(s, ev, s')
    ensures s'.starts <= s'.commits && forall r :: r in s'.commits ==> r in s'.runners
  {
    assert forall r :: r in s.runners ==> OwnedBy(s, r);
  }

  /** Every start of the command follows that same runner's own granted RUNNING write. */
  lemma {:induction false} OnlyCommittersStart(ss: seq<Life>, evs: seq<Event>, k: nat)
    requires Run(ss, evs) && ss[0] == Born() && k <= |evs|
    ensures Owned(ss[k])
  {
    if k > 0 {
      OnlyCommittersStart(ss, evs, k - 1);
      assert StepAt(ss, evs, k - 1);
      StepKeepsOwned(ss[k - 1], evs[k - 1], ss[k]);
    }
  }

  /** This runner has not committed and never will: it is still undecided, or it has given up. */
  predicate Harmless(s: Life, r: RunnerId) {
    && r !in s.commits && r !in s.starts
    && (r in s.runners ==> s.runners[r].Undecided() || s.runners[r].Exited? || s.runners[r].Reaped?)
  }

  /** A runner that has not committed by the time the row turns terminal never starts the command, even
      if the queue row is claimed, requeued or claimed again; nor does any runner launched later. */
  lemma {:induction false} LateRunnersNeverStart(ss: seq<Life>, evs: seq<Event>, i: nat, j: nat, r: RunnerId)
    requires Run(ss, evs) && i <= j <= |evs|
    requires ss[i].job.Terminal() && Harmless(ss[i], r)
    ensures Harmless(ss[j], r)
  {
    if i < j {
      LateRunnersNeverStart(ss, evs, i, j - 1, r);
      TerminalIsForever(ss, evs, i, j - 1);
      assert StepAt(ss, evs, j - 1);
    }
  }

  /** Removed from the queue, or finished, with every runner there ever was done and seen to be done. */
  ghost predicate Over(s: Life) {
    && (InQueue(s, BackendState.Removed) || InQueue(s, BackendState.Finished))
    && forall r :: r in s.runners ==> s.runners[r].Reaped?
  }

  /** A job removed from the queue while no runner is alive never runs again, not even when a dispatcher that
      had already listed it fails to launch it: no runner is launched, no command starts, and none that had
      not succeeded does. */
  lemma {:induction false} RemovedJobsNeverRun(ss: seq<Life>, evs: seq<Event>, i: nat, j: nat)
    requires Run(ss, evs) && i <= j <= |evs| && Over(ss[i])
    ensures Over(ss[j]) && ss[j].runners == ss[i].runners
    ensures ss[j].starts == ss[i].starts && ss[j].exitedZero == ss[i].exitedZero
  {
    if i < j {
      RemovedJobsNeverRun(ss, evs, i, j - 1);
      assert StepAt(ss, evs, j - 1);
    }
  }

  // ---- one runner at a time ----------------------------------------------

  /** Launched and not yet seen to be done. */
  predicate Alive(s: Life, r: RunnerId) {
    r in s.runners && !s.runners[r].Reaped?
  }

  /** One runner at most is alive, and none while the job can be claimed. */
  ghost predicate OneAlive(s: Life) {
    && (forall r, q :: Alive(s, r) && Alive(s, q) ==> r == q)
    && (s.queue.None? || InQueue(s, BackendState.Queued) ==> forall r :: !Alive(s, r))
  }

  lemma {:induction false} NoOneElseWakes(s: Life, ev: Event, s': Life)
    requires Steps(s, ev, s')
    ensures forall r :: Alive(s', r) ==> Alive(s, r) || ev == Claim(r)
    ensures s'.queue.None? ==> s.queue.None?
    ensures InQueue(s', BackendState.Queued) ==> InQueue(s, BackendState.Queued) || s.queue.None? || ev.Reap?
    ensures ev.Claim? ==> InQueue(s, BackendState.Queued) && !InQueue(s', BackendState.Queued)
  {
  }

  lemma {:induction false} StepKeepsOneAlive(s: Life, ev: Event, s': Life)
    requires OneAlive(s) && Steps(s, ev, s')
    ensures OneAlive(s')
  {
    NoOneElseWakes(s, ev, s');
    if ev.Reap? {
      assert Alive(s, ev.r) && !Alive(s', ev.r);
    }
  }

  /** A job's command is never executed by two runners at once: the queue gives the job out again only when
      the exit of its last runner has been seen. */
  lemma {:induction false} OneRunnerAtATime(ss: seq<Life>, evs: seq<Event>, k: nat)
    requires Run(ss, evs) && ss[0] == Born() && k <= |evs|
    ensures OneAlive(ss[k])
    ensures forall r, q :: (r in ss[k].runners && q in ss[k].runners
      && ss[k].runners[r].Executing? && ss[k].runners[q].Executing?) ==> r == q
  {
    if k > 0 {
      OneRunnerAtATime(ss, evs, k - 1);
      assert StepAt(ss, evs, k - 1);
      StepKeepsOneAlive(ss[k - 1], evs[k - 1], ss[k]);
    }
    assert forall r :: (r in ss[k].runners && ss[k].runners[r].Executing?) ==> Alive(ss[k], r);
  }

  // ---- success is earned -------------------------------------------------

  /** Nothing says the job succeeded, in either store, in any runner's hands or in any write still to
      come, unless its command really exited zero. */
  ghost predicate Earned(s: Life) {
    s.exitedZero || (
      && s.job != Succeeded
      && (s.queue.Some? && s.queue.value.state == BackendState.Finished ==> s.queue.value.exit != Some(0))
      && (forall c :: c in s.pending ==> s.pending[c] != Succeeded)
      && (forall r :: r in s.runners ==> Unsuccessful(s.runners[r])))
  }

  predicate Unsuccessful(runner: Runner) {
    match runner
    case Ended(code, _, _) => code != 0
    case Settling(code, _, _, seen) => code != 0 && seen != Succeeded
    case Exited(code) => code != 0
    case _ => true
  }

  lemma {:induction false} StepKeepsEarned(s: Life, ev: Event, s': Life)
    requires Earned(s) && Steps(s, ev, s')
    ensures Earned(s')
  {
    if !s'.exitedZero {
      forall r | r in s'.runners ensures Unsuccessful(s'.runners[r]) {
        if r in s.runners {
          assert Unsuccessful(s.runners[r]);
        }
      }
    }
  }

  /** However the processes interleave, with killed runners, failed launches, displacements, lost processes
      and stale readings, a job is recorded as succeeded only if its command exited zero. */
  lemma {:induction false} SuccessIsEarned(ss: seq<Life>, evs: seq<Event>, k: nat)
    requires Run(ss, evs) && ss[0] == Born() && k <= |evs|
    ensures Earned(ss[k])
    ensures ss[k].job == Succeeded ==> ss[k].exitedZero
    ensures InQueue(ss[k], BackendState.Finished) && ss[k].queue.value.exit == Some(0) ==> ss[k].exitedZero
    ensures forall r :: At(ss[k], r, Exited(0)) ==> ss[k].exitedZero
  {
    if k > 0 {
      SuccessIsEarned(ss, evs, k - 1);
      assert StepAt(ss, evs, k - 1);
      StepKeepsEarned(ss[k - 1], evs[k - 1], ss[k]);
    }
  }

  // ---- what a runner records ---------------------------------------------

  /** A runner past its commit works on a row that has been queued, and an ending it read back still stands. */
  predicate ReadRight(job: JobState, runner: Runner) {
    && (runner.Committed? || runner.Started() ==> job != Preparing)
    && (runner.Settling? && runner.seen in {Succeeded, Failed, Cancelled, Lost} ==> job == runner.seen)
  }

  ghost predicate AllReadRight(s: Life) {
    forall r :: r in s.runners ==> ReadRight(s.job, s.runners[r])
  }

  lemma {:induction false} RunnerStaysRight(s: Life, ev: Event, s': Life, r: RunnerId)
    requires Steps(s, ev, s') && r in s'.runners && (r in s.runners ==> ReadRight(s.job, s.runners[r]))
    ensures ReadRight(s'.job, s'.runners[r])
  {
    StaysQueuedOnce(s, ev, s', r);
    StaysEnded(s, ev, s', r);
  }

  lemma {:induction false} StaysQueuedOnce(s: Life, ev: Event, s': Life, r: RunnerId)
    requires Steps(s, ev, s') && r in s'.runners && (r in s.runners ==> ReadRight(s.job, s.runners[r]))
    ensures s'.runners[r].Committed? || s'.runners[r].Started() ==> s'.job != Preparing
  {
  }

  lemma {:induction false} StaysEnded(s: Life, ev: Event, s': Life, r: RunnerId)
    requires Steps(s, ev, s') && r in s'.runners && (r in s.runners ==> ReadRight(s.job, s.runners[r]))
    ensures s'.runners[r].Settling? && s'.runners[r].seen in {Succeeded, Failed, Cancelled, Lost} ==>
      s'.job == s'.runners[r].seen
  {
  }

  lemma {:induction false} RunnersReadRight(ss: seq<Life>, evs: seq<Event>, k: nat)
    requires Run(ss, evs) && ss[0] == Born() && k <= |evs|
    ensures AllReadRight(ss[k])
  {
    if k > 0 {
      RunnersReadRight(ss, evs, k - 1);
      assert StepAt(ss, evs, k - 1);
      forall r | r in ss[k].runners ensures ReadRight(ss[k].job, ss[k].runners[r]) {
        RunnerStaysRight(ss[k - 1], evs[k - 1], ss[k], r);
      }
    }
  }

  /** This is how the runner's command ended. */
  predicate EndedSo(runner: Runner, code: int, preempted: bool, cancelled: bool) {
    (runner.Ended? || runner.Settling?)
    && runner.code == code && runner.preempted == preempted && runner.cancelled == cancelled
  }

  /** What a runner settles by is what its own command ended with. */
  lemma {:induction false} HowItEnded(
      ss: seq<Life>, evs: seq<Event>, k: nat, r: RunnerId, code: int, preempted: bool, cancelled: bool)
    requires Run(ss, evs) && ss[0] == Born() && k <= |evs|
    requires r in ss[k].runners && EndedSo(ss[k].runners[r], code, preempted, cancelled)
    ensures exists i :: 0 <= i < k && evs[i] == CommandEnds(r, code, preempted, cancelled)
  {
    assert k > 0;
    assert StepAt(ss, evs, k - 1);
    if evs[k - 1] != CommandEnds(r, code, preempted, cancelled) {
      EndedBefore(ss[k - 1], evs[k - 1], ss[k], r, code, preempted, cancelled);
      HowItEnded(ss, evs, k - 1, r, code, preempted, cancelled);
    }
  }

  lemma {:induction false} EndedBefore(
      s: Life, ev: Event, s': Life, r: RunnerId, code: int, preempted: bool, cancelled: bool)
    requires Steps(s, ev, s') && ev != CommandEnds(r, code, preempted, cancelled)
    requires r in s'.runners && EndedSo(s'.runners[r], code, preempted, cancelled)
    ensures r in s.runners && EndedSo(s.runners[r], code, preempted, cancelled)
  {
  }

  /** The other half of earning: what a runner's last write makes of the row. One that has ended keeps its state.
      A live one is queued again if the job was displaced; otherwise cancelled if it was cancelled; otherwise it
      has succeeded if and only if the command exited zero, and failed if not. */
  lemma {:induction false} EndingsAreRecorded(ss: seq<Life>, evs: seq<Event>, k: nat, r: RunnerId)
    requires Run(ss, evs) && ss[0] == Born() && k < |evs| && evs[k] == Settle(r)
    ensures r in ss[k].runners && ss[k].runners[r].Settling?
    ensures var was, ended := ss[k].job, ss[k].runners[r];
      ss[k + 1].job ==
        if was in {Succeeded, Failed, Cancelled, Lost} then was
        else if ended.preempted then JobState.Queued
        else if ended.cancelled then Cancelled
        else if ended.code == 0 then Succeeded else Failed
    ensures r in ss[k + 1].runners && ss[k + 1].runners[r] == Exited(ss[k].runners[r].code)
  {
    RunnersReadRight(ss, evs, k);
    assert StepAt(ss, evs, k);
    assert ReadRight(ss[k].job, ss[k].runners[r]);
  }

  /** And what the queue is told when a runner is seen to have exited: a job asked to stop waits again, unflagged;
      any other is finished with the runner's exit code. The job's own row is not touched. */
  lemma {:induction false} ExitsAreRecorded(ss: seq<Life>, evs: seq<Event>, k: nat, r: RunnerId)
    requires Run(ss, evs) && k < |evs| && evs[k] == Reap(r)
    ensures r in ss[k].runners && ss[k].runners[r].Exited? && ss[k].queue.Some?
    ensures var was, code := ss[k].queue.value, ss[k].runners[r].code;
      ss[k + 1].queue == Some(
        if was.preempt then QueueRow(BackendState.Queued, was.exit, false, was.cancel)
        else QueueRow(BackendState.Finished, Some(code), was.preempt, was.cancel))
    ensures ss[k + 1].job == ss[k].job
  {
    assert StepAt(ss, evs, k);
  }

  // ---- the commit that is refused ----------------------------------------

  /** A write of QUEUED that is granted: by the submitter, by a reconciler or by a displaced runner. */
  predicate GrantsQueued(s: Life, ev: Event)
    requires Possible(s, ev)
  {
    CanTransition(s.job, JobState.Queued) && (
      || ev.RecordQueued?
      || (ev.Write? && s.pending[ev.c] == JobState.Queued)
      || (ev.Settle? && Outcome(s.runners[ev.r]) == JobState.Queued))
  }

  /** Some write of QUEUED was granted before event `k`. */
  ghost predicate QueuedBefore(ss: seq<Life>, evs: seq<Event>, k: nat)
    requires Run(ss, evs) && k <= |evs|
  {
    exists i :: 0 <= i < k && GrantedAt(ss, evs, i)
  }

  ghost predicate GrantedAt(ss: seq<Life>, evs: seq<Event>, i: nat)
    requires Run(ss, evs) && i < |evs|
  {
    assert StepAt(ss, evs, i);
    GrantsQueued(ss[i], evs[i])
  }

  lemma {:induction false} LeavingPreparation(s: Life, ev: Event, s': Life)
    requires Steps(s, ev, s')
    ensures s'.job == Preparing <==> s.job == Preparing && !GrantsQueued(s, ev) && !s'.job.Terminal()
  {
  }

  lemma {:induction false} WasLive(s: Life, ev: Event, s': Life)
    requires Steps(s, ev, s') && !s'.job.Terminal()
    ensures !s.job.Terminal()
  {
  }

  /** A live row is still being prepared exactly when no write of QUEUED has been granted yet. */
  lemma {:induction false} PreparingUntilQueued(ss: seq<Life>, evs: seq<Event>, k: nat)
    requires Run(ss, evs) && ss[0] == Born() && k <= |evs| && !ss[k].job.Terminal()
    ensures ss[k].job == Preparing <==> !QueuedBefore(ss, evs, k)
  {
    if k > 0 {
      assert StepAt(ss, evs, k - 1);
      WasLive(ss[k - 1], evs[k - 1], ss[k]);
      PreparingUntilQueued(ss, evs, k - 1);
      LeavingPreparation(ss[k - 1], evs[k - 1], ss[k]);
      OneMoreGrant(ss, evs, k - 1);
    }
  }

  lemma {:induction false} OneMoreGrant(ss: seq<Life>, evs: seq<Event>, k: nat)
    requires Run(ss, evs) && k < |evs|
    ensures QueuedBefore(ss, evs, k + 1) <==> QueuedBefore(ss, evs, k) || GrantedAt(ss, evs, k)
  {
    if QueuedBefore(ss, evs, k) {
      var i :| 0 <= i < k && GrantedAt(ss, evs, i);
      assert 0 <= i < k + 1 && GrantedAt(ss, evs, i);
    }
    if GrantedAt(ss, evs, k) {
      assert 0 <= k < k + 1 && GrantedAt(ss, evs, k);
    }
  }

  /** Exactly when a runner is turned away at its commit: the row has ended, or nobody has yet been granted
      the write that says the job is queued. */
  lemma {:induction false} RefusedExactlyBeforeQueued(ss: seq<Life>, evs: seq<Event>, k: nat, r: RunnerId)
    requires Run(ss, evs) && ss[0] == Born() && k < |evs| && evs[k] == Commit(r)
    ensures r in ss[k + 1].runners
    ensures ss[k + 1].runners[r] == Exited(1) <==> ss[k].job.Terminal() || !QueuedBefore(ss, evs, k)
    ensures ss[k + 1].runners[r] == Committed <==> !ss[k].job.Terminal() && QueuedBefore(ss, evs, k)
  {
    assert StepAt(ss, evs, k);
    if !ss[k].job.Terminal() {
      PreparingUntilQueued(ss, evs, k);
    }
  }

  // ---- failing without having started ------------------------------------

  /** What can fail a job by itself: an unusable command, a spawn or a launch that fails, a submission given
      up, a runner or a job killed, a process lost. */
  predicate Mishap(ev: Event) {
    || ev.Reject? || (ev.Spawn? && !ev.ok) || ev.DecideFail?
    || ev.Die? || ev.LaunchFails? || ev.KillOrphan? || ev.LoseTrack?
  }

  /** No mishap before event `k`, and no runner launched before the row says its job is queued. */
  ghost predicate Orderly(ss: seq<Life>, evs: seq<Event>, k: nat)
    requires |ss| == |evs| + 1 && k <= |evs|
  {
    forall i :: 0 <= i < k ==> !Mishap(evs[i]) && (evs[i].Claim? ==> ss[i].job != Preparing)
  }

  predicate Failure(exit: Option<int>) {
    exit != Some(0)
  }

  /** Until the command starts nothing says it failed, and nothing will unless the row has ended. */
  ghost predicate Unharmed(s: Life) {
    && s.job != Failed
    && (s.queue.Some? && s.queue.value.state == BackendState.Finished && Failure(s.queue.value.exit)
        ==> s.job.Terminal())
    && (forall c :: c in s.pending && s.pending[c] == Failed ==> s.job.Terminal())
    && (forall r :: r in s.runners ==> UnharmedRunner(s.job, s.runners[r]))
  }

  predicate UnharmedRunner(job: JobState, runner: Runner) {
    match runner
    case Launched => job != Preparing
    case Accepted => job != Preparing
    case Exited(_) => job.Terminal()
    case _ => true
  }

  lemma {:induction false} StepKeepsUnharmed(s: Life, ev: Event, s': Life)
    requires Owned(s) && Unharmed(s) && Steps(s, ev, s') && s'.starts == {}
    requires !Mishap(ev) && (ev.Claim? ==> s.job != Preparing)
    ensures Unharmed(s')
  {
    StartsOnlyGrow(s, ev, s');
    forall r | r in s'.runners ensures UnharmedRunner(s'.job, s'.runners[r]) {
      assert r in s.runners ==> OwnedBy(s, r) && UnharmedRunner(s.job, s.runners[r]);
      RunnerStaysUnharmed(s, ev, s', r);
    }
    NothingSaysFailed(s, ev, s');
  }

  lemma {:induction false} RunnerStaysUnharmed(s: Life, ev: Event, s': Life, r: RunnerId)
    requires Steps(s, ev, s') && r in s'.runners && s.starts == {}
    requires r in s.runners ==> OwnedBy(s, r) && UnharmedRunner(s.job, s.runners[r])
    requires !Mishap(ev) && (ev.Claim? ==> s.job != Preparing)
    ensures UnharmedRunner(s'.job, s'.runners[r])
  {
  }

  lemma {:induction false} NothingSaysFailed(s: Life, ev: Event, s': Life)
    requires Owned(s) && Unharmed(s) && Steps(s, ev, s') && s.starts == {} && !Mishap(ev)
    ensures s'.job != Failed
    ensures s'.queue.Some? && s'.queue.value.state == BackendState.Finished && Failure(s'.queue.value.exit)
      ==> s'.job.Terminal()
    ensures forall c :: c in s'.pending && s'.pending[c] == Failed ==> s'.job.Terminal()
  {
    assert forall r :: r in s.runners ==> OwnedBy(s, r) && UnharmedRunner(s.job, s.runners[r]);
  }

  lemma {:induction false} StartsOnlyGrow(s: Life, ev: Event, s': Life)
    requires Steps(s, ev, s')
    ensures s.starts <= s'.starts
  {
  }

  lemma {:induction false} OrderlyKeepsUnharmed(ss: seq<Life>, evs: seq<Event>, k: nat)
    requires Run(ss, evs) && ss[0] == Born() && k <= |evs| && Orderly(ss, evs, k) && ss[k].starts == {}
    ensures Unharmed(ss[k])
  {
    if k > 0 {
      assert StepAt(ss, evs, k - 1);
      StartsOnlyGrow(ss[k - 1], evs[k - 1], ss[k]);
      OrderlyKeepsUnharmed(ss, evs, k - 1);
      OnlyCommittersStart(ss, evs, k - 1);
      StepKeepsUnharmed(ss[k - 1], evs[k - 1], ss[k]);
    }
  }

  /** A job whose command never started is recorded as failed only after one of the mishaps above, or after a
      runner was launched before the row said QUEUED. */
  lemma {:induction false} UnstartedJobsFailOnlyByMishapOrHaste(ss: seq<Life>, evs: seq<Event>, k: nat)
    requires Run(ss, evs) && ss[0] == Born() && k <= |evs|
    requires ss[k].job == Failed && ss[k].starts == {}
    ensures exists i :: 0 <= i < k && (Mishap(evs[i]) || (evs[i].Claim? && ss[i].job == Preparing))
  {
    if Orderly(ss, evs, k) {
      OrderlyKeepsUnharmed(ss, evs, k);
    }
  }

  // ---- a race ------------------------------------------------------------

  lemma {:induction false} RunOneMore(ss: seq<Life>, evs: seq<Event>, ev: Event, s': Life)
    requires Run(ss, evs) && Steps(ss[|evs|], ev, s')
    ensures Run(ss + [s'], evs + [ev])
  {
    var ss', evs' := ss + [s'], evs + [ev];
    forall k | 0 <= k < |evs'| ensures StepAt(ss', evs', k) {
      if k < |evs| {
        assert StepAt(ss, evs, k);
      }
    }
  }

  /** A life seen from its queue row, one runner and one other process. */
  function Seen(job: JobState, queue: QueueRow, runner: Runner, pending: Option<JobState>): Life {
    Life(job, Some(queue), map[1 := runner], if pending.None? then map[] else map[1 := pending.value], {}, {}, false)
  }

  /** The submitter adds the queue row before it records the job as queued. A runner quick enough to
      commit in between is refused, and gives up with exit code 1. */
  lemma {:induction false} EarlyRunnerIsRefused() returns (ss: seq<Life>, evs: seq<Event>)
    ensures Run(ss, evs) && ss[0] == Born()
    ensures evs == [Enqueue, Claim(1), Read(1), Commit(1)]
    ensures ss[4] == Seen(Preparing, QueueRow(BackendState.Running, None, false, false), Exited(1), None)
  {
    var waiting := QueueRow(BackendState.Queued, None, false, false);
    var claimed := QueueRow(BackendState.Running, None, false, false);
    var s1 := Born().(queue := Some(waiting));
    ss, evs := [Born()], [];
    RunOneMore(ss, evs, Enqueue, s1);
    ss, evs := ss + [s1], evs + [Enqueue];
    RunOneMore(ss, evs, Claim(1), Seen(Preparing, claimed, Launched, None));
    ss, evs := ss + [Seen(Preparing, claimed, Launched, None)], evs + [Claim(1)];
    RunOneMore(ss, evs, Read(1), Seen(Preparing, claimed, Accepted, None));
    ss, evs := ss + [Seen(Preparing, claimed, Accepted, None)], evs + [Read(1)];
    RunOneMore(ss, evs, Commit(1), Seen(Preparing, claimed, Exited(1), None));
    ss, evs := ss + [Seen(Preparing, claimed, Exited(1), None)], evs + [Commit(1)];
  }

  /** Its exit is reaped, with the job by then recorded as queued. */
  lemma {:induction false} EarlyRunnerIsReaped() returns (ss: seq<Life>, evs: seq<Event>)
    ensures Run(ss, evs) && ss[0] == Born() && |evs| == 6
    ensures ss[6] == Seen(JobState.Queued, QueueRow(BackendState.Finished, Some(1), false, false), Reaped, None)
    ensures forall k :: 0 <= k < |evs| ==> !Mishap(evs[k])
  {
    ss, evs := EarlyRunnerIsRefused();
    var claimed := QueueRow(BackendState.Running, None, false, false);
    var ended := QueueRow(BackendState.Finished, Some(1), false, false);
    RunOneMore(ss, evs, RecordQueued, Seen(JobState.Queued, claimed, Exited(1), None));
    ss, evs := ss + [Seen(JobState.Queued, claimed, Exited(1), None)], evs + [RecordQueued];
    RunOneMore(ss, evs, Reap(1), Seen(JobState.Queued, ended, Reaped, None));
    ss, evs := ss + [Seen(JobState.Queued, ended, Reaped, None)], evs + [Reap(1)];
  }

  /** Reconciling then fails the job, although its command never started and nothing went wrong with it. */
  lemma {:induction false} EarlyRunnerFailsTheJob() returns (ss: seq<Life>, evs: seq<Event>)
    ensures Run(ss, evs) && ss[0] == Born()
    ensures ss[|evs|].job == Failed && ss[|evs|].starts == {} && !ss[|evs|].exitedZero
    ensures forall k :: 0 <= k < |evs| ==> !Mishap(evs[k])
  {
    ss, evs := EarlyRunnerIsReaped();
    var ended := QueueRow(BackendState.Finished, Some(1), false, false);
    RunOneMore(ss, evs, DecideReconcile(1), Seen(JobState.Queued, ended, Reaped, Some(Failed)));
    ss, evs := ss + [Seen(JobState.Queued, ended, Reaped, Some(Failed))], evs + [DecideReconcile(1)];
    RunOneMore(ss, evs, Write(1), Seen(Failed, ended, Reaped, None));
    ss, evs := ss + [Seen(Failed, ended, Reaped, None)], evs + [Write(1)];
  }
}
