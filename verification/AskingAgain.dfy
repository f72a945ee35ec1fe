/** Asking again. A job asked to stop runs on for a while, and keeps its slot and its reservation while it
    does; every tick in that time asks about preemption afresh. What those questions stop, and when it was
    not needed. */
module AskingAgain {
  import opened Wrappers
  import opened Resources
  import opened QueueRows
  import opened World
  import opened Hold
  import opened StepEffects
  import opened Upkeep
  import opened Preemption
  import opened Displacement
  import opened Scan
  import opened Runs
  import opened SmallRuns
  import Devices
  import SmallTables

  // ---- what a flag changes -----------------------------------------------

  /** Flagging rows leaves the unflagged ones as they were, and flags all it names that run. */
  lemma {:induction false} UnflaggedRows(rows: seq<Row>, victims: set<JobId>, waiter: Option<JobId>, row: Row)
    requires row.state == Running && !row.preemptRequested
    ensures row in Marked(rows, victims, waiter) <==> row in rows && row.id !in victims
  {
    if rows != [] {
      UnflaggedRows(rows[1..], victims, waiter, row);
      assert rows == [rows[0]] + rows[1..];
    }
  }

  /** The test does not look at flags. */
  lemma {:induction false} FlagsAreNotRead(
      env: TickEnv, w: World, w': World, waiter: Row, victims: set<JobId>, asker: Option<JobId>, gone: set<JobId>)
    requires w' == w.(rows := Marked(w.rows, victims, asker))
    ensures Suffices(env, w', waiter, gone) <==> Suffices(env, w, waiter, gone)
  {
    MarkingKeepsIds(w.rows, victims, asker);
    MarkingKeepsLedger(env.cfg, w.rows, victims, asker, Ids(w.rows) - gone);
  }

  /** Candidates by id, which is all that the test reads of them. */
  function CandidateIds(env: TickEnv, w: World, waiter: Row): set<JobId> {
    RowIds(Candidates(env, w, waiter))
  }

  lemma {:induction false} CandidateIdsAre(env: TickEnv, w: World, waiter: Row, id: JobId)
    requires env.preemption.enabled && Distinct(w.rows)
    ensures id in CandidateIds(env, w, waiter) <==> exists r :: CandidateFor(env, w, waiter, id, r)
  {
    CandidatesFacts(env, w, waiter);
    if id in CandidateIds(env, w, waiter) {
      var r :| r in Candidates(env, w, waiter) && r.id == id;
      assert CandidateFor(env, w, waiter, id, r);
    }
    if r :| CandidateFor(env, w, waiter, id, r) {
      assert r in Candidates(env, w, waiter);
    }
  }

  ghost predicate CandidateFor(env: TickEnv, w: World, waiter: Row, id: JobId, r: Row) {
    r in w.rows && Displaceable(env, w, waiter, r) && r.id == id
  }

  /** Jobs already asked to stop are candidates no more; nothing else changes for the others, whatever tick
      asks next. */
  lemma {:induction false} FlaggedAreNoCandidates(
      env: TickEnv, w: World, w': World, waiter: Row, victims: set<JobId>, asker: Option<JobId>)
    requires Distinct(w.rows) && w' == w.(rows := Marked(w.rows, victims, asker))
    ensures CandidateIds(env, w', waiter) == CandidateIds(env, w, waiter) - victims
  {
    MarkingKeepsIds(w.rows, victims, asker);
    if env.preemption.enabled {
      forall id ensures id in CandidateIds(env, w', waiter) <==> id in CandidateIds(env, w, waiter) - victims {
        CandidateIdsAre(env, w, waiter, id);
        CandidateIdsAre(env, w', waiter, id);
        if r :| CandidateFor(env, w', waiter, id, r) {
          UnflaggedRows(w.rows, victims, asker, r);
          assert CandidateFor(env, w, waiter, id, r);
        }
        if r :| id !in victims && CandidateFor(env, w, waiter, id, r) {
          UnflaggedRows(w.rows, victims, asker, r);
          assert CandidateFor(env, w', waiter, id, r);
        }
      }
    }
  }

  /** Somebody is stopped exactly when there is somebody to stop and stopping them all would do. */
  lemma {:induction false} StopsExactlyWhenAllWouldDo(env: TickEnv, w: World, waiter: Row)
    ensures Victims(env, w, waiter) != []
      <==> CandidateIds(env, w, waiter) != {} && Suffices(env, w, waiter, CandidateIds(env, w, waiter))
  {
    var cs := Candidates(env, w, waiter);
    ShortestPrefixFacts(env, w, waiter, cs, 1);
    assert cs[..|cs|] == cs;
    if cs == [] {
      assert RowIds(cs) == {};
    } else {
      assert cs[0].id in RowIds(cs);
      var n := ShortestPrefix(env, w, waiter, cs, 1);
      if n > 0 {
        StoppingMoreStillSuffices(env, w, waiter, RowIds(cs[..n]), RowIds(cs));
      }
    }
  }

  // ---- the next question -------------------------------------------------

  /** The next tick that asks for the same waiter, before anything has ended, stops somebody else exactly when
      the candidates it then finds, those already stopping set aside, would do by themselves. The jobs already
      stopping are counted as if they stayed. */
  lemma {:induction false} StopsAgainExactlyWhenTheRestWouldDo(env: TickEnv, next: TickEnv, w: World, waiter: Row)
    requires Distinct(w.rows)
    ensures var rest := CandidateIds(next, w, waiter) - RowIds(Victims(env, w, waiter));
      Victims(next, Displaced(env, w, waiter), waiter) != [] <==> rest != {} && Suffices(next, w, waiter, rest)
  {
    var w', victims := Displaced(env, w, waiter), RowIds(Victims(env, w, waiter));
    FlaggedAreNoCandidates(next, w, w', waiter, victims, Some(waiter.id));
    StopsExactlyWhenAllWouldDo(next, w', waiter);
    FlagsAreNotRead(next, w, w', waiter, victims, Some(waiter.id), CandidateIds(next, w', waiter));
  }

  lemma {:induction false} DistinctIdsSplit(cs: seq<Row>, n: nat)
    requires DistinctIds(cs) && n <= |cs|
    ensures RowIds(cs) - RowIds(cs[..n]) == RowIds(cs[n..])
  {
    assert cs == cs[..n] + cs[n..];
    forall r, v | r in cs[n..] && v in cs[..n] ensures r.id != v.id {
      var i :| 0 <= i < n && cs[i] == v;
      var j :| 0 <= j < |cs[n..]| && cs[n..][j] == r;
      assert cs[n + j] == r;
    }
  }

  /** In the same readings those are the candidates behind the victims. */
  lemma {:induction false} TheRestAreBehindTheVictims(env: TickEnv, w: World, waiter: Row)
    requires env.preemption.enabled && Distinct(w.rows)
    ensures var cs, n := Candidates(env, w, waiter), |Victims(env, w, waiter)|;
      CandidateIds(env, w, waiter) - RowIds(Victims(env, w, waiter)) == RowIds(cs[n..])
  {
    CandidatesFacts(env, w, waiter);
    DistinctIdsSplit(Candidates(env, w, waiter), |Victims(env, w, waiter)|);
  }

  lemma {:induction false} VictimsAreStopping(env: TickEnv, w: World, waiter: Row, id: JobId)
    requires Distinct(w.rows) && id in RowIds(Victims(env, w, waiter))
    ensures Stopping(Displaced(env, w, waiter), id)
  {
    var victim :| victim in Victims(env, w, waiter) && victim.id == id;
    VictimsAreJustified(env, w, waiter, victim);
    var victims := RowIds(Victims(env, w, waiter));
    ListedMeansFound(w.rows, victim);
    FlaggedIsFound(w.rows, victims, Some(waiter.id), id);
  }

  lemma {:induction false} FlaggedIsFound(rows: seq<Row>, victims: set<JobId>, asker: Option<JobId>, id: JobId)
    ensures Find(rows, id).Some? && Find(rows, id).value.state == Running && id in victims ==>
      var row := Find(Marked(rows, victims, asker), id);
      row.Some? && row.value.state == Running && row.value.preemptRequested
  {
    if rows != [] && rows[0].id != id {
      FlaggedIsFound(rows[1..], victims, asker, id);
    }
  }

  /** So what the next question stops was not needed: the jobs already stopping pass its own test. */
  lemma {:induction false} StoppingSufficesAlready(env: TickEnv, w: World, waiter: Row)
    requires Distinct(w.rows) && Victims(env, w, waiter) != []
    ensures var victims := RowIds(Victims(env, w, waiter));
      && Suffices(env, Displaced(env, w, waiter), waiter, victims)
      && forall id :: id in victims ==> Stopping(Displaced(env, w, waiter), id)
  {
    var victims := RowIds(Victims(env, w, waiter));
    VictimsAreMinimal(env, w, waiter);
    FlagsAreNotRead(env, w, Displaced(env, w, waiter), waiter, victims, Some(waiter.id), victims);
    forall id | id in victims ensures Stopping(Displaced(env, w, waiter), id) {
      VictimsAreStopping(env, w, waiter, id);
    }
  }

  // ---- question after question -------------------------------------------

  /** Machines one question for the same waiter apart, with nothing ended in between. */
  ghost predicate Questions(env: TickEnv, ws: seq<World>, waiter: Row) {
    ws != [] && forall k :: 0 <= k < |ws| - 1 ==> AskedAt(env, ws, waiter, k)
  }

  ghost predicate AskedAt(env: TickEnv, ws: seq<World>, waiter: Row, k: nat)
    requires k + 1 < |ws|
  {
    ws[k + 1] == Displaced(env, ws[k], waiter)
  }

  /** Each candidate alone would do. */
  ghost predicate OneWouldDo(env: TickEnv, w: World, waiter: Row) {
    forall r {:trigger DoesAlone(env, w, waiter, r.id)} ::
      r in Candidates(env, w, waiter) ==> DoesAlone(env, w, waiter, r.id)
  }

  predicate DoesAlone(env: TickEnv, w: World, waiter: Row, id: JobId) {
    Suffices(env, w, waiter, {id})
  }

  /** So many candidates are left, and each alone would do. */
  ghost predicate Left(env: TickEnv, w: World, waiter: Row, n: nat) {
    Distinct(w.rows) && OneWouldDo(env, w, waiter) && |Candidates(env, w, waiter)| == n
  }

  lemma {:induction false} NewId(cs: seq<Row>, n: nat)
    requires DistinctIds(cs) && n < |cs|
    ensures |RowIds(cs[..n + 1])| == |RowIds(cs[..n])| + 1
  {
    assert cs[..n + 1] == cs[..n] + [cs[n]];
    forall r | r in cs[..n] ensures r.id != cs[n].id {
      var k :| 0 <= k < n && cs[k] == r;
    }
    OneMoreId(RowIds(cs[..n]), RowIds(cs[..n + 1]), cs[n].id);
  }

  lemma {:induction false} OneMoreId(fewer: set<JobId>, more: set<JobId>, id: JobId)
    requires id !in fewer && more == fewer + {id}
    ensures |more| == |fewer| + 1
  {
  }

  lemma {:induction false} AsManyIds(cs: seq<Row>, n: nat)
    requires DistinctIds(cs) && n <= |cs|
    ensures |RowIds(cs[..n])| == n
  {
    if n == 0 {
      assert RowIds(cs[..0]) == {};
    } else {
      AsManyIds(cs, n - 1);
      NewId(cs, n - 1);
    }
  }

  lemma {:induction false} AsManyCandidates(env: TickEnv, w: World, waiter: Row)
    requires Distinct(w.rows)
    ensures |CandidateIds(env, w, waiter)| == |Candidates(env, w, waiter)|
  {
    if env.preemption.enabled {
      CandidatesFacts(env, w, waiter);
    }
    var cs := Candidates(env, w, waiter);
    AsManyIds(cs, |cs|);
    assert cs[..|cs|] == cs;
  }

  lemma {:induction false} StillOneWouldDo(env: TickEnv, w: World, waiter: Row)
    requires Distinct(w.rows) && OneWouldDo(env, w, waiter)
    ensures OneWouldDo(env, Displaced(env, w, waiter), waiter)
  {
    var w', victims := Displaced(env, w, waiter), RowIds(Victims(env, w, waiter));
    FlaggedAreNoCandidates(env, w, w', waiter, victims, Some(waiter.id));
    forall r | r in Candidates(env, w', waiter) ensures DoesAlone(env, w', waiter, r.id) {
      assert r.id in CandidateIds(env, w', waiter);
      var was :| was in Candidates(env, w, waiter) && was.id == r.id;
      assert DoesAlone(env, w, waiter, was.id);
      FlagsAreNotRead(env, w, w', waiter, victims, Some(waiter.id), {r.id});
    }
  }

  lemma {:induction false} OneIsStopped(env: TickEnv, w: World, waiter: Row)
    requires CandidateIds(env, w, waiter) != {} && OneWouldDo(env, w, waiter)
    ensures |Victims(env, w, waiter)| == 1
    ensures exists id :: id in CandidateIds(env, w, waiter) && RowIds(Victims(env, w, waiter)) == {id}
  {
    var cs := Candidates(env, w, waiter);
    assert cs != [] && cs[0].id in RowIds(cs);
    assert RowIds(cs[..1]) == {cs[0].id};
    assert DoesAlone(env, w, waiter, cs[0].id);
    assert ShortestPrefix(env, w, waiter, cs, 1) == 1;
  }

  lemma {:induction false} OneFewer(s: set<JobId>, id: JobId)
    requires id in s
    ensures |s - {id}| == |s| - 1
  {
  }

  lemma {:induction false} OneMoreIsStopped(env: TickEnv, w: World, waiter: Row, n: nat)
    requires Left(env, w, waiter, n) && n > 0
    ensures |Victims(env, w, waiter)| == 1 && Left(env, Displaced(env, w, waiter), waiter, n - 1)
  {
    var w' := Displaced(env, w, waiter);
    AsManyCandidates(env, w, waiter);
    OneIsStopped(env, w, waiter);
    var id :| id in CandidateIds(env, w, waiter) && RowIds(Victims(env, w, waiter)) == {id};
    MarkingKeepsIds(w.rows, {id}, Some(waiter.id));
    FlaggedAreNoCandidates(env, w, w', waiter, {id}, Some(waiter.id));
    OneFewer(CandidateIds(env, w, waiter), id);
    AsManyCandidates(env, w', waiter);
    StillOneWouldDo(env, w, waiter);
  }

  lemma {:induction false} OneFewerNextTime(env: TickEnv, ws: seq<World>, waiter: Row, n: nat, k: nat)
    requires Questions(env, ws, waiter) && k + 1 < |ws| && Left(env, ws[k], waiter, n) && n > 0
    ensures Left(env, ws[k + 1], waiter, n - 1)
  {
    assert AskedAt(env, ws, waiter, k);
    OneMoreIsStopped(env, ws[k], waiter, n);
  }

  lemma {:induction false} OneFewerEachTime(env: TickEnv, ws: seq<World>, waiter: Row, n: nat, k: nat)
    requires Questions(env, ws, waiter) && Left(env, ws[0], waiter, n) && k <= n && k < |ws|
    ensures Left(env, ws[k], waiter, n - k)
  {
    if k > 0 {
      OneFewerEachTime(env, ws, waiter, n, k - 1);
      OneFewerNextTime(env, ws, waiter, n - k + 1, k - 1);
    }
  }

  /** Where any one candidate would do, one question after another stops them all, one at a time. */
  lemma {:induction false} OneWouldDoAndAllAreStopped(env: TickEnv, ws: seq<World>, waiter: Row, n: nat, k: nat)
    requires Questions(env, ws, waiter) && Left(env, ws[0], waiter, n) && k <= n && k < |ws|
    ensures Left(env, ws[k], waiter, n - k)
    ensures k < n ==> |Victims(env, ws[k], waiter)| == 1
  {
    OneFewerEachTime(env, ws, waiter, n, k);
    if k < n {
      OneMoreIsStopped(env, ws[k], waiter, n - k);
    }
  }

  // ---- when nobody else need be stopped ----------------------------------

  ghost function StoppingIds(w: World): set<JobId> {
    set id | id in w.Active() && Stopping(w, id)
  }

  /** Once the jobs already stopping have ended the waiter has its slot and passes admission. */
  ghost predicate WaitingWillDo(env: TickEnv, w: World, waiter: Row) {
    var after := EndJobs(w, StoppingIds(w));
    && after.InFlight() < env.slots
    && Admit(env.cfg, RequestFor(env.cfg, waiter), RunningRequests(env.cfg, after), env.node).Admitted?
  }

  /** Exactly when work is stopped that need not be, while nothing runs elsewhere: there is somebody to stop,
      stopping them all would do, and so would what is stopping already, nobody at all included. */
  lemma {:induction false} StopsNeedlesslyExactly(env: TickEnv, w: World, waiter: Row)
    requires Consistent(w) && NothingAway(w)
    ensures Victims(env, w, waiter) != [] && WaitingWillDo(env, w, waiter)
      <==> CandidateIds(env, w, waiter) != {} && Suffices(env, w, waiter, CandidateIds(env, w, waiter))
           && Suffices(env, w, waiter, StoppingIds(w))
  {
    StopsExactlyWhenAllWouldDo(env, w, waiter);
    RightQuestionWhileNothingIsAway(env, w, waiter, StoppingIds(w));
  }

  // ---- a run -------------------------------------------------------------

  /** A job of high priority that asks for nothing but its slot. */
  function Urgent(): Row {
    Preemption.Modest(3, 50, Queued)
  }

  function Second(): Row {
    InProcess(NewJob(2, 0), 0.0)
  }

  function Flag(row: Row): Row {
    row.(preemptRequested := true, preemptBy := Some(3))
  }

  lemma {:induction false} UrgentIsAdmitted(now: real, running: seq<ResourceRequest>)
    ensures var env := Small(now, 2, true);
      Admit(env.cfg, RequestFor(env.cfg, Urgent()), running, env.node).Admitted?
  {
  }

  /** Two jobs run; the table as a tick finds it, with the waiter first. */
  predicate BothRun(w: World, first: Row, second: Row) {
    && w == World([Urgent(), first, second], [Devices.RunningJob(1, []), Devices.RunningJob(2, [])], [])
    && (first == First(0) || first == Flag(First(0))) && second == Second()
  }

  lemma {:induction false} TwoInFlight(w: World)
    requires w.running == [Devices.RunningJob(1, []), Devices.RunningJob(2, [])] && w.adopted == []
    ensures w.InFlight() == 2 && w.Active() == {1, 2}
  {
    SmallTables.TwoJobs(w.running[0], w.running[1]);
    assert w.Active() == {1, 2};
  }

  lemma {:induction false} BothAreCandidates(w: World, now: real)
    requires BothRun(w, First(0), Second()) && now >= 60.0
    ensures Candidates(Small(now, 2, true), w, Urgent()) == [First(0), Second()]
  {
    var env := Small(now, 2, true);
    TwoInFlight(w);
    assert IfDisplaceable(env, w, Urgent(), Urgent()) == [];
    assert IfDisplaceable(env, w, Urgent(), First(0)) == [First(0)];
    assert IfDisplaceable(env, w, Urgent(), Second()) == [Second()];
    EligibleOfThree(env, w, Urgent(), Urgent(), First(0), Second());
    assert Eligible(env, w, Urgent(), w.rows) == [First(0), Second()];
    TwoCandidates(env, First(0), Second());
  }

  /** While the first of them is not stopping it is the victim. */
  lemma {:induction false} FirstIsStopped(w: World, now: real)
    requires BothRun(w, First(0), Second()) && now >= 60.0
    ensures Victims(Small(now, 2, true), w, Urgent()) == [First(0)]
  {
    var env := Small(now, 2, true);
    TwoInFlight(w);
    BothAreCandidates(w, now);
    UrgentIsAdmitted(now, ActiveRequests(env.cfg, w.rows, Ids(w.rows) - {1}));
    FirstIsEnough(env, w, Urgent());
  }

  /** While it is stopping the second is. */
  lemma {:induction false} SecondIsStopped(w: World, now: real)
    requires BothRun(w, Flag(First(0)), Second()) && now >= 60.0
    ensures Victims(Small(now, 2, true), w, Urgent()) == [Second()]
  {
    var env := Small(now, 2, true);
    TwoInFlight(w);
    EligibleOfThree(env, w, Urgent(), Urgent(), Flag(First(0)), Second());
    OneCandidate(env, Second());
    UrgentIsAdmitted(now, ActiveRequests(env.cfg, w.rows, Ids(w.rows) - {2}));
    FirstIsEnough(env, w, Urgent());
  }

  /** And yet the waiter could start as soon as the first has ended. */
  lemma {:induction false} FirstAloneWouldDo(w: World, now: real)
    requires BothRun(w, Flag(First(0)), Second())
    ensures Startable(Small(now, 2, true), EndJobs(w, {1}), Urgent())
  {
    var after := EndJobs(w, {1});
    TwoInFlight(w);
    assert w.running[..1] == [Devices.RunningJob(1, [])] && w.running[..1][..0] == [];
    assert Devices.DropRunning([Devices.RunningJob(1, [])], {1}) == [];
    assert after.running == [Devices.RunningJob(2, [])];
    UrgentIsAdmitted(now, RunningRequests(Small(now, 2, true).cfg, after));
  }

  lemma {:induction false} UrgentWaits(m: Machine, now: real) returns (ev: Event, m': Machine)
    requires Dispatchable(m.w.rows) == [Urgent()] && m.w.InFlight() == 2
    ensures Leads(m, ev, m', 2) && ev.Tick? && ev.env == Small(now, 2, true)
    ensures m'.w == Displaced(ev.env, m.w, Urgent())
  {
    var env, row, fate := Small(now, 2, true), Urgent(), Starts(3);
    forall fix | Roomy(fix, 2) ensures TickPossible(m, env, [fate], fix) {
      UrgentTickIsPossible(m, now, fix);
    }
    HeadAsks(m, env, row, fate);
    ev, m' := Tick(env, [fate]), AfterTick(m, env, [fate]);
  }

  lemma {:induction false} UrgentTickIsPossible(m: Machine, now: real, fix: Fixture)
    requires |Dispatchable(m.w.rows)| == 1 && Roomy(fix, 2)
    ensures TickPossible(m, Small(now, 2, true), [Starts(3)], fix)
  {
  }

  lemma {:induction false} UrgentIsDispatchable(first: Row, second: Row)
    requires first.state == Running && second.state == Running
    ensures Dispatchable([Urgent(), first, second]) == [Urgent()]
  {
    assert [Urgent(), first, second][1..] == [first, second];
    assert [first, second][1..] == [second] && [second][1..] == [];
    assert Dispatchable([]) == [] && Dispatchable([second]) == [] + Dispatchable([]);
    assert Dispatchable([first, second]) == [] + Dispatchable([second]);
  }

  lemma {:induction false} MarkOne(first: Row, second: Row, victim: JobId)
    requires first.state == Running && second.state == Running && first.id == 1 && second.id == 2
    requires !second.preemptRequested && (victim == 1 ==> !first.preemptRequested) && victim in {1, 2}
    ensures Marked([Urgent(), first, second], {victim}, Some(3))
         == [Urgent(), if victim == 1 then Flag(first) else first, if victim == 2 then Flag(second) else second]
  {
    assert [Urgent(), first, second][1..] == [first, second];
    assert [first, second][1..] == [second] && [second][1..] == [];
    assert Marked([second], {victim}, Some(3)) == [if victim == 2 then Flag(second) else second];
  }

  lemma {:induction false} SecondStarts(m: Machine) returns (e: Event, m1: Machine, e1: Event, m2: Machine)
    requires m.w == World([First(0)], [Devices.RunningJob(1, [])], [])
    ensures Leads(m, e, m1, 2) && Leads(m1, e1, m2, 2)
    ensures m2.w == World([First(0), Second()], [Devices.RunningJob(1, []), Devices.RunningJob(2, [])], [])
  {
    SmallTables.OneJob(Devices.RunningJob(1, []));
    ShortTables(First(0), NewJob(2, 0));
    e, m1 := JobArrives(m, NewJob(2, 0), 2);
    e1, m2 := JobStarts(m1, 0.0, 2, 2, 0);
    SecondIsPut();
  }

  lemma {:induction false} UrgentArrives(m: Machine) returns (e: Event, m': Machine)
    requires m.w == World([First(0), Second()], [Devices.RunningJob(1, []), Devices.RunningJob(2, [])], [])
    ensures Leads(m, e, m', 2) && BothRun(m'.w, First(0), Second())
  {
    TwoInFlight(m.w);
    SmallTables.TwoRows(First(0), Second(), 3);
    e, m' := JobArrives(m, Urgent(), 2);
    UrgentIsPut();
  }

  /** From nothing, two jobs are queued and start, and a third of higher priority is queued behind them. */
  lemma {:induction false} BothStart() returns (ms: seq<Machine>, evs: seq<Event>)
    ensures Tale(ms, evs, 2) && |evs| == 5 && BothRun(ms[5].w, First(0), Second())
  {
    var e0, m1, e1, m2 := FirstJobRuns(2, 0);
    var e2, m3, e3, m4 := SecondStarts(m2);
    ms, evs := [Empty(), m1, m2, m3, m4], [e0, e1, e2, e3];
    var e4, m5 := UrgentArrives(m4);
    Then(ms, evs, 2, e4, m5);
    ms, evs := ms + [m5], evs + [e4];
  }

  lemma {:induction false} SecondIsPut()
    ensures Put([First(0), NewJob(2, 0)], Second()) == [First(0), Second()]
  {
    assert [First(0), NewJob(2, 0)][1..] == [NewJob(2, 0)] && [NewJob(2, 0)][1..] == [];
    assert Without([NewJob(2, 0)], 2) == [] && Without([First(0), NewJob(2, 0)], 2) == [First(0)];
    assert [First(0)][1..] == [] && Insert(Second(), []) == [Second()];
  }

  lemma {:induction false} UrgentIsPut()
    ensures Put([First(0), Second()], Urgent()) == [Urgent(), First(0), Second()]
  {
    assert [First(0), Second()][1..] == [Second()] && [Second()][1..] == [];
    assert Without([Second()], 3) == [Second()] && Without([First(0), Second()], 3) == [First(0), Second()];
  }

  lemma {:induction false} TwoQuestions() returns (ms: seq<Machine>, evs: seq<Event>)
    ensures Tale(ms, evs, 2) && |evs| == 7 && evs[5].Tick? && evs[6].Tick?
    ensures evs[5].env == Small(100.0, 2, true) && evs[6].env == Small(100.25, 2, true)
    ensures BothRun(ms[5].w, First(0), Second()) && BothRun(ms[6].w, Flag(First(0)), Second())
    ensures ms[7].w.rows == [Urgent(), Flag(First(0)), Flag(Second())]
  {
    ms, evs := BothStart();
    var e5, m6 := FirstQuestion(ms[5]);
    var e6, m7 := SecondQuestion(m6);
    Then(ms, evs, 2, e5, m6);
    Then(ms + [m6], evs + [e5], 2, e6, m7);
    ms, evs := ms + [m6] + [m7], evs + [e5] + [e6];
  }

  /** Two ticks a quarter of a second apart, and two jobs asked to stop for a waiter that needs one slot: the
      first was still stopping when the second tick asked, and its end alone would have done. */
  lemma {:induction false} TwoAreStoppedForOne() returns (ms: seq<Machine>, evs: seq<Event>, fix: Fixture, waiter: Row)
    ensures Run(ms, evs, fix) && ms[0] == Empty() && |evs| == 7 && evs[5].Tick? && evs[6].Tick?
    ensures evs[5].env.now == 100.0 && evs[6].env == evs[5].env.(now := 100.25)
    ensures ms[5].w.rows == [waiter, First(0), Second()] && ms[6].w.rows == [waiter, Flag(First(0)), Second()]
    ensures ms[7].w.rows == [waiter, Flag(First(0)), Flag(Second())]
    ensures Startable(evs[6].env, EndJobs(ms[6].w, {1}), waiter)
  {
    fix, waiter := SmallFixture(2), Urgent();
    ms, evs := TwoQuestions();
    FirstAloneWouldDo(ms[6].w, 100.25);
    TaleIsARun(ms, evs, 2);
  }

  lemma {:induction false} FirstQuestion(m: Machine) returns (ev: Event, m': Machine)
    requires BothRun(m.w, First(0), Second())
    ensures Leads(m, ev, m', 2) && ev.Tick? && ev.env == Small(100.0, 2, true)
    ensures BothRun(m'.w, Flag(First(0)), Second())
  {
    TwoInFlight(m.w);
    UrgentIsDispatchable(First(0), Second());
    ev, m' := UrgentWaits(m, 100.0);
    FirstIsStopped(m.w, 100.0);
    assert RowIds([First(0)]) == {1};
    MarkOne(First(0), Second(), 1);
  }

  lemma {:induction false} SecondQuestion(m: Machine) returns (ev: Event, m': Machine)
    requires BothRun(m.w, Flag(First(0)), Second())
    ensures Leads(m, ev, m', 2) && ev.Tick? && ev.env == Small(100.25, 2, true)
    ensures m'.w.rows == [Urgent(), Flag(First(0)), Flag(Second())]
  {
    TwoInFlight(m.w);
    UrgentIsDispatchable(Flag(First(0)), Second());
    ev, m' := UrgentWaits(m, 100.25);
    SecondIsStopped(m.w, 100.25);
    assert RowIds([Second()]) == {2};
    MarkOne(Flag(First(0)), Second(), 2);
  }
}
