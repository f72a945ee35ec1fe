/** What a run does to the reports and the retry times the dispatcher keeps about other machines. */
module RemoteLedger {
  import opened Wrappers
  import opened QueueRows
  import opened Devices
  import opened World
  import opened Placement
  import opened Scan
  import opened StepEffects
  import opened Runs
  import Preemption

  // ---- one turn ----------------------------------------------------------

  /** What a turn may do to what is kept about other machines: nothing, or one attempt to place this job on
      a machine that was due and welcoming. */
  ghost predicate AwayTurn(env: TickEnv, away: Elsewhere, away': Elsewhere, row: Row) {
    || (away'.failures == away.failures && away'.reports == away.reports)
    || exists node :: Attempted(env, away, away', row, node)
  }

  ghost predicate Attempted(env: TickEnv, away: Elsewhere, away': Elsewhere, row: Row, node: NodeName) {
    var key := Key(row.id, node);
    && MayTry(away.failures, key, env.now) && Welcomes(env.cfg, away, node, RequestFor(env.cfg, row))
    && ((away'.failures == Failed(away.failures, key, env.now) && away'.reports == away.reports)
        || away' == PlacedOn(away, key, RequestFor(env.cfg, row)))
  }

  lemma {:induction false} FirstWelcomingIsDue(env: TickEnv, s: State, row: Row, nodes: seq<NodeName>, fate: Fate)
    requires FirstWelcoming(env, s, row, nodes, fate).Some?
    ensures var node := FirstWelcoming(env, s, row, nodes, fate).value;
      && node in nodes && node !in fate.barred
      && MayTry(s.away.failures, Key(row.id, node), env.now)
      && Welcomes(env.cfg, s.away, node, RequestFor(env.cfg, row))
  {
    if nodes[0] in fate.barred || !MayTry(s.away.failures, Key(row.id, nodes[0]), env.now)
      || !Welcomes(env.cfg, s.away, nodes[0], RequestFor(env.cfg, row))
    {
      FirstWelcomingIsDue(env, s, row, nodes[1..], fate);
    }
  }

  lemma {:induction false} AttemptIsAwayTurn(env: TickEnv, s: State, row: Row, node: NodeName, fate: Fate)
    requires MayTry(s.away.failures, Key(row.id, node), env.now)
    requires Welcomes(env.cfg, s.away, node, RequestFor(env.cfg, row))
    ensures AwayTurn(env, s.away, RemoteAttempt(env, s, row, node, fate).0.away, row)
  {
    var s' := RemoteAttempt(env, s, row, node, fate).0;
    assert (s'.away.failures == s.away.failures && s'.away.reports == s.away.reports)
        || Attempted(env, s.away, s'.away, row, node);
  }

  lemma {:induction false} StayingKeepsAway(
      env: TickEnv, s: State, row: Row, verdict: Verdict, offered: bool, fate: Fate)
    ensures StayStep(env, s, row, verdict, offered, fate).away == s.away
  {
  }

  lemma {:induction false} FreeAwayTurn(env: TickEnv, s: State, row: Row, later: seq<Row>, fate: Fate)
    ensures AwayTurn(env, s.away, FreeStep(env, s, row, later, fate).away, row)
  {
    var verdict := Judge(env, s, row);
    var chosen := ChooseNode(env, s, row, later, verdict.Here?, fate);
    if chosen.None? {
      StayingKeepsAway(env, s, row, verdict, false, fate);
    } else {
      FirstWelcomingIsDue(env, s, row, env.nodes, fate);
      AttemptIsAwayTurn(env, s, row, chosen.value, fate);
      StayingKeepsAway(env, RemoteAttempt(env, s, row, chosen.value, fate).0, row, verdict, true, fate);
    }
  }

  lemma {:induction false} ElsewhereAwayTurn(env: TickEnv, s: State, row: Row, later: seq<Row>, fate: Fate)
    ensures AwayTurn(env, s.away, ElsewhereStep(env, s, row, later, fate).away, row)
  {
    var chosen := ChooseNode(env, s, row, later, false, fate);
    if chosen.Some? {
      FirstWelcomingIsDue(env, s, row, env.nodes, fate);
      AttemptIsAwayTurn(env, s, row, chosen.value, fate);
    }
  }

  lemma {:induction false} PinnedAwayTurn(env: TickEnv, s: State, row: Row, fate: Fate)
    requires row.pinned.Some?
    ensures AwayTurn(env, s.away, PinnedStep(env, s, row, fate).away, row)
  {
    var node := row.pinned.value;
    if MayTry(s.away.failures, Key(row.id, node), env.now)
      && Welcomes(env.cfg, s.away, node, RequestFor(env.cfg, row)) {
      AttemptIsAwayTurn(env, s, row, node, fate);
    }
  }

  /** Every turn tries at most one machine for its job, one whose retry time has come and whose report, as
      charged so far, would have it. */
  lemma {:induction false} TurnTriesOnlyWhatIsDue(env: TickEnv, s: State, row: Row, later: seq<Row>, fate: Fate)
    ensures AwayTurn(env, Meanwhile(s, row, fate).away, Step(env, s, row, later, fate).away, row)
  {
    var s1 := Meanwhile(s, row, fate);
    if row.pinned.Some? {
      PinnedAwayTurn(env, s1, row, fate);
    } else if s1.closed {
      ElsewhereAwayTurn(env, s1, row, later, fate);
    } else {
      FreeAwayTurn(env, s1, row, later, fate);
    }
  }

  // ---- ticks and runs ----------------------------------------------------

  /** A machine's report is as it was, or has been charged fairly since. */
  ghost predicate ReportKept(away: Elsewhere, away': Elsewhere, node: NodeName) {
    node in away.reports ==> node in away'.reports && FairlyCharged(away.reports[node], away'.reports[node])
  }

  lemma {:induction false} KeptTwice(a: Elsewhere, b: Elsewhere, c: Elsewhere, node: NodeName)
    requires ReportKept(a, b, node) && ReportKept(b, c, node)
    ensures ReportKept(a, c, node)
  {
    if node in a.reports {
      FairTwice(a.reports[node], b.reports[node], c.reports[node]);
    }
  }

  lemma {:induction false} TurnKeepsReport(
      env: TickEnv, s: State, row: Row, later: seq<Row>, fate: Fate, node: NodeName)
    requires env.cfg.enforce && node !in fate.polled
    ensures ReportKept(s.away, Step(env, s, row, later, fate).away, node)
  {
    TurnTriesOnlyWhatIsDue(env, s, row, later, fate);
    AwayTurnKeepsReport(env, Meanwhile(s, row, fate).away, Step(env, s, row, later, fate).away, row, node);
  }

  lemma {:induction false} AwayTurnKeepsReport(
      env: TickEnv, before: Elsewhere, after: Elsewhere, row: Row, node: NodeName)
    requires env.cfg.enforce && AwayTurn(env, before, after, row)
    ensures ReportKept(before, after, node)
  {
    if there :| Attempted(env, before, after, row, there) {
      ChargingIsFair(env.cfg, before.reports[there], RequestFor(env.cfg, row));
    }
  }

  lemma {:induction false} WalkKeepsReport(
      env: TickEnv, s: State, queue: seq<Row>, fates: seq<Fate>, k: nat, node: NodeName)
    requires env.cfg.enforce && k <= |queue| == |fates| && Unpolled(fates, node)
    ensures ReportKept(s.away, Walk(env, s, queue, fates, k).away, node)
  {
    if k > 0 {
      WalkKeepsReport(env, s, queue, fates, k - 1, node);
      var before := Walk(env, s, queue, fates, k - 1);
      TurnKeepsReport(env, before, queue[k - 1], queue[k..], fates[k - 1], node);
      KeptTwice(s.away, before.away, Walk(env, s, queue, fates, k).away, node);
    }
  }

  ghost predicate Unpolled(fates: seq<Fate>, node: NodeName) {
    forall k :: 0 <= k < |fates| ==> node !in fates[k].polled
  }

  /** No fresh report of this machine arrives, and the dispatcher that keeps the old one lives on. */
  ghost predicate NoNews(ev: Event, node: NodeName) {
    match ev
    case Tick(_, fates) => Unpolled(fates, node)
    case Poll(there, _) => there != node
    case Restart(_) => false
    case Crash(_, _, _, _, _) => false
    case _ => true
  }

  /** A stale report is never overdrawn. Over any stretch of any run in which a machine does not report
      again, whatever is placed on it, each job judged on the report as charged with those before, what its
      report is charged with stays on every ledger at what it said itself or at what is usable there. */
  lemma {:induction false} StaleReportIsNotOverdrawn(
      ms: seq<Machine>, evs: seq<Event>, fix: Fixture, i: nat, j: nat, node: NodeName)
    requires Run(ms, evs, fix) && fix.cfg.enforce && i <= j <= |evs|
    requires forall k :: i <= k < j ==> NoNews(evs[k], node)
    ensures ReportKept(ms[i].away, ms[j].away, node)
  {
    if i < j {
      StaleReportIsNotOverdrawn(ms, evs, fix, i, j - 1, node);
      assert Happens(ms, evs, fix, j - 1);
      EventKeepsReport(ms[j - 1], evs[j - 1], fix, node);
      KeptTwice(ms[i].away, ms[j - 1].away, ms[j].away, node);
    }
  }

  lemma {:induction false} EventKeepsReport(m: Machine, ev: Event, fix: Fixture, node: NodeName)
    requires Possible(m, ev, fix) && fix.cfg.enforce && NoNews(ev, node)
    ensures ReportKept(m.away, After(m, ev, fix).away, node)
  {
    if ev.Tick? {
      var queue := Dispatchable(m.w.rows);
      WalkKeepsReport(ev.env, Begin(m.w, m.clock, m.blocked, m.away), queue, ev.fates, |queue|, node);
    }
  }

  // ---- how often a failing placement is tried ----------------------------

  /** A turn that finds a machine for its job, and fails to place it there, goes on as if there had been none:
      the job starts here exactly when this machine would have it and it was not placed elsewhere. */
  lemma {:induction false} StartsHereExactlyWhenNotPlaced(
      env: TickEnv, s: State, row: Row, later: seq<Row>, fate: Fate)
    requires row.pinned.None? && !s.closed && !fate.withdrawn && fate.launch.Launches?
    requires Find(s.w.rows, row.id) == Some(row) && row.state == Queued && row.argvOk
    ensures var s1 := Meanwhile(s, row, fate);
      var verdict := Judge(env, s1, row);
      var placed := ChooseNode(env, s1, row, later, verdict.Here?, fate).Some? && fate.shipped.Some?;
      Step(env, s, row, later, fate).w.running
      == if verdict.Here? && !placed then s.w.running + [RunningJob(row.id, verdict.devices)] else s.w.running
  {
  }

  /** One key's retry entry is as it was. */
  predicate SameEntry(failures: map<Key, Retry>, failures': map<Key, Retry>, key: Key) {
    (key in failures <==> key in failures') && (key in failures ==> failures'[key] == failures[key])
  }

  /** What a tick may do to one key's retry entry: drop it, leave it, or note one failing attempt that was due. */
  predicate EntryMoved(failures: map<Key, Retry>, failures': map<Key, Retry>, key: Key, now: real) {
    key in failures' ==>
      || (key in failures && failures'[key] == failures[key])
      || (MayTry(failures, key, now) && failures'[key] == Failed(failures, key, now)[key])
  }

  /** An attempt that was due and failed shows in the entry. */
  lemma {:induction false} FailuresShow(failures: map<Key, Retry>, key: Key, now: real)
    requires MayTry(failures, key, now)
    ensures !SameEntry(failures, Failed(failures, key, now), key)
  {
  }

  lemma {:induction false} TurnMovesEntry(env: TickEnv, away: Elsewhere, away': Elsewhere, row: Row, key: Key)
    requires AwayTurn(env, away, away', row)
    ensures EntryMoved(away.failures, away'.failures, key, env.now)
    ensures row.id != key.id ==> SameEntry(away.failures, away'.failures, key)
  {
    if node :| Attempted(env, away, away', row, node) {
      assert row.id != key.id ==> Key(row.id, node) != key;
    }
  }

  lemma {:induction false} StepMovesEntry(
      env: TickEnv, s: State, row: Row, later: seq<Row>, fate: Fate, key: Key)
    ensures EntryMoved(s.away.failures, Step(env, s, row, later, fate).away.failures, key, env.now)
    ensures row.id != key.id ==> SameEntry(s.away.failures, Step(env, s, row, later, fate).away.failures, key)
  {
    TurnTriesOnlyWhatIsDue(env, s, row, later, fate);
    var before, after := Meanwhile(s, row, fate).away, Step(env, s, row, later, fate).away;
    assert before.failures == s.away.failures;
    TurnMovesEntry(env, before, after, row, key);
  }

  lemma {:induction false} EntryThrough(
      a: map<Key, Retry>, b: map<Key, Retry>, c: map<Key, Retry>, key: Key, now: real)
    requires
      || (SameEntry(a, b, key) && EntryMoved(b, c, key, now))
      || (EntryMoved(a, b, key, now) && SameEntry(b, c, key))
    ensures EntryMoved(a, c, key, now)
  {
  }

  ghost predicate HadTurn(queue: seq<Row>, k: nat, id: JobId)
    requires k <= |queue|
  {
    exists i :: 0 <= i < k && queue[i].id == id
  }

  /** A job has one turn a tick, so its entry moves once at most. */
  lemma {:induction false} WalkMovesEntry(
      env: TickEnv, s: State, queue: seq<Row>, fates: seq<Fate>, k: nat, key: Key)
    requires k <= |queue| == |fates| && forall i, j :: 0 <= i < j < |queue| ==> queue[i].id != queue[j].id
    ensures EntryMoved(s.away.failures, Walk(env, s, queue, fates, k).away.failures, key, env.now)
    ensures !HadTurn(queue, k, key.id) ==> SameEntry(s.away.failures, Walk(env, s, queue, fates, k).away.failures, key)
  {
    if k > 0 {
      WalkMovesEntry(env, s, queue, fates, k - 1, key);
      var before := Walk(env, s, queue, fates, k - 1);
      StepMovesEntry(env, before, queue[k - 1], queue[k..], fates[k - 1], key);
      assert queue[k - 1].id == key.id ==> !HadTurn(queue, k - 1, key.id);
      assert HadTurn(queue, k - 1, key.id) ==> HadTurn(queue, k, key.id);
      EntryThrough(s.away.failures, before.away.failures, Walk(env, s, queue, fates, k).away.failures, key, env.now);
    }
  }

  lemma {:induction false} TickMovesEntry(m: Machine, env: TickEnv, fates: seq<Fate>, key: Key)
    requires Distinct(m.w.rows) && |fates| == |Dispatchable(m.w.rows)|
    ensures EntryMoved(m.away.failures, AfterTick(m, env, fates).away.failures, key, env.now)
  {
    var queue := Dispatchable(m.w.rows);
    DispatchableDiffer(m.w.rows);
    var s := Begin(m.w, m.clock, m.blocked, m.away);
    WalkMovesEntry(env, s, queue, fates, |queue|, key);
    if key.id in Ids(queue) {
      EntryThrough(m.away.failures, s.away.failures, AfterTick(m, env, fates).away.failures, key, env.now);
    } else {
      forall i | 0 <= i < |queue| ensures queue[i].id != key.id {
        Preemption.MemberIsListed(queue, queue[i]);
      }
      assert !HadTurn(queue, |queue|, key.id);
    }
  }

  /** The failing attempts at one key by event `k`, since the entry was last dropped: because the job was placed
      there, left the queue, or another dispatcher took over. */
  ghost function TriesBy(ms: seq<Machine>, evs: seq<Event>, key: Key, k: nat): seq<real>
    requires |ms| == |evs| + 1 && k <= |evs|
  {
    if k == 0 || key !in ms[k].away.failures then []
    else
      var same := SameEntry(ms[k - 1].away.failures, ms[k].away.failures, key);
      TriesBy(ms, evs, key, k - 1) + if !same && evs[k - 1].Tick? then [evs[k - 1].env.now] else []
  }

  lemma {:induction false} EventMovesEntry(
      ms: seq<Machine>, evs: seq<Event>, fix: Fixture, k: nat, key: Key)
    requires Run(ms, evs, fix) && k < |evs| && Consistent(ms[k].w)
    ensures var failures, failures' := ms[k].away.failures, ms[k + 1].away.failures;
      if evs[k].Tick? then EntryMoved(failures, failures', key, evs[k].env.now)
      else key in failures' ==> SameEntry(failures, failures', key)
  {
    assert Happens(ms, evs, fix, k);
    if evs[k].Tick? {
      TickMovesEntry(ms[k], evs[k].env, evs[k].fates, key);
    }
  }

  /** Over any run, whatever other jobs and machines do in between: `n` failing attempts to place one job on one
      machine span at least the first `n - 1` delays, and the next is due a full delay after the last. */
  lemma {:induction false} FailingPlacementsSpreadOut(
      ms: seq<Machine>, evs: seq<Event>, fix: Fixture, key: Key, k: nat)
    requires Run(ms, evs, fix) && Consistent(ms[0].w) && key !in ms[0].away.failures && k <= |evs|
    ensures Spread(TriesBy(ms, evs, key, k), ms[k].away.failures, key)
  {
    if k > 0 {
      FailingPlacementsSpreadOut(ms, evs, fix, key, k - 1);
      EveryRunIsConsistent(ms, evs, fix, k - 1);
      EventMovesEntry(ms, evs, fix, k - 1, key);
      SpreadStep(ms, evs, key, k);
    }
  }

  lemma {:induction false} SpreadStep(ms: seq<Machine>, evs: seq<Event>, key: Key, k: nat)
    requires |ms| == |evs| + 1 && 0 < k <= |evs|
    requires Spread(TriesBy(ms, evs, key, k - 1), ms[k - 1].away.failures, key)
    requires var failures, failures' := ms[k - 1].away.failures, ms[k].away.failures;
      if evs[k - 1].Tick? then EntryMoved(failures, failures', key, evs[k - 1].env.now)
      else key in failures' ==> SameEntry(failures, failures', key)
    ensures Spread(TriesBy(ms, evs, key, k), ms[k].away.failures, key)
  {
    var failures, failures' := ms[k - 1].away.failures, ms[k].away.failures;
    var before := TriesBy(ms, evs, key, k - 1);
    if key in failures' {
      if SameEntry(failures, failures', key) {
        assert before + [] == before;
      } else {
        OneMoreFailure(before, failures, key, evs[k - 1].env.now);
      }
    }
  }
}
