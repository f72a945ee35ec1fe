/** Whole runs as the hold budget sees them: what one tick asks of it, and what a run adds up to. */
module HoldRuns {
  import opened Wrappers
  import opened QueueRows
  import opened World
  import opened HoldClock
  import opened Scan
  import opened TickTheorems
  import opened Runs

  // ---- the hold, tick by tick --------------------------------------------

  /** One turn considers at most one job for holding, and only to find the head. */
  ghost predicate HoldTurn(env: TickEnv, s: State, s': State) {
    || (s'.clock == s.clock && s'.held == s.held && (s.head.Some? ==> s'.head == s.head))
    || (s.head.None? && s'.head.Some?
        && exists call :: ConsideredOnce(env, s, s', call))
  }

  ghost predicate ConsideredOnce(env: TickEnv, s: State, s': State, call: HoldCall) {
    && s'.clock == Considered(s.clock, call, env.now, env.sched.headWait)
    && s'.held == (if Granted(s'.clock, call, env.now, env.sched.headWait, env.sched.maxHold) then s'.head else s.held)
    && s'.head.Some? && s'.head.value.id == call.id
  }

  lemma {:induction false} RemoteKeepsClock(env: TickEnv, s: State, row: Row, node: NodeName, fate: Fate)
    ensures var s' := RemoteAttempt(env, s, row, node, fate).0;
      s'.clock == s.clock && s'.held == s.held && s'.head == s.head
  {
  }

  lemma {:induction false} RefusedClock(env: TickEnv, s: State, row: Row)
    ensures HoldTurn(env, s, RefusedStep(env, s, row))
  {
    var s' := RefusedStep(env, s, row);
    if s.head.None? && env.sched.backfill {
      var s1 := HeadStep(env, Noted(env, s, row.id), row);
      assert ConsideredOnce(env, s, s', CallFor(env, s1, row));
    }
  }

  lemma {:induction false} StartKeepsClock(env: TickEnv, s: State, row: Row, devices: seq<int>, fate: Fate)
    ensures var s' := LocalStart(env, s, row, devices, fate);
      s'.clock == s.clock && s'.held == s.held && s'.head == s.head
  {
  }

  lemma {:induction false} StayClock(env: TickEnv, s: State, row: Row, verdict: Verdict, offered: bool, fate: Fate)
    ensures HoldTurn(env, s, StayStep(env, s, row, verdict, offered, fate))
  {
    if verdict.Here? {
      StartKeepsClock(env, s, row, verdict.devices, fate);
    } else if !offered {
      RefusedClock(env, s, row);
    }
  }

  lemma {:induction false} FreeClock(env: TickEnv, s: State, row: Row, later: seq<Row>, fate: Fate)
    ensures HoldTurn(env, s, FreeStep(env, s, row, later, fate))
  {
    var verdict := Judge(env, s, row);
    var chosen := ChooseNode(env, s, row, later, verdict.Here?, fate);
    if chosen.None? {
      StayClock(env, s, row, verdict, false, fate);
    } else {
      var s' := RemoteAttempt(env, s, row, chosen.value, fate).0;
      RemoteKeepsClock(env, s, row, chosen.value, fate);
      StayClock(env, s', row, verdict, true, fate);
      HoldTurnFromSame(env, s, s', FreeStep(env, s, row, later, fate));
    }
  }

  lemma {:induction false} HoldTurnFromSame(env: TickEnv, s: State, s1: State, s': State)
    requires s1.clock == s.clock && s1.held == s.held && s1.head == s.head && HoldTurn(env, s1, s')
    ensures HoldTurn(env, s, s')
  {
    if call :| ConsideredOnce(env, s1, s', call) {
      assert ConsideredOnce(env, s, s', call);
    }
  }

  lemma {:induction false} StepClock(env: TickEnv, s: State, row: Row, later: seq<Row>, fate: Fate)
    ensures HoldTurn(env, s, Step(env, s, row, later, fate))
  {
    var s1 := Meanwhile(s, row, fate);
    if row.pinned.Some? {
      PinnedKeepsClock(env, s1, row, fate);
    } else if s1.closed {
      ElsewhereKeepsClock(env, s1, row, later, fate);
    } else {
      FreeClock(env, s1, row, later, fate);
    }
    HoldTurnFromSame(env, s, s1, Step(env, s, row, later, fate));
  }

  lemma {:induction false} PinnedKeepsClock(env: TickEnv, s: State, row: Row, fate: Fate)
    requires row.pinned.Some?
    ensures HoldTurn(env, s, PinnedStep(env, s, row, fate))
  {
    RemoteKeepsClock(env, s, row, row.pinned.value, fate);
  }

  lemma {:induction false} ElsewhereKeepsClock(env: TickEnv, s: State, row: Row, later: seq<Row>, fate: Fate)
    ensures HoldTurn(env, s, ElsewhereStep(env, s, row, later, fate))
  {
    var chosen := ChooseNode(env, s, row, later, false, fate);
    if chosen.Some? {
      RemoteKeepsClock(env, s, row, chosen.value, fate);
    }
  }

  lemma {:induction false} HoldTurns(env: TickEnv, states: seq<State>, k: nat)
    requires k < |states| && states[0].head.None? && states[0].held.None?
    requires forall i :: 0 <= i < |states| - 1 ==> HoldTurnAt(env, states, i)
    ensures HoldTurn(env, states[0], states[k])
  {
    if k > 0 {
      HoldTurns(env, states, k - 1);
      assert HoldTurnAt(env, states, k - 1);
      HoldTurnTwice(env, states[0], states[k - 1], states[k]);
    }
  }

  ghost predicate HoldTurnAt(env: TickEnv, states: seq<State>, i: nat)
    requires i + 1 < |states|
  {
    HoldTurn(env, states[i], states[i + 1])
  }

  lemma {:induction false} WalkClock(env: TickEnv, s: State, queue: seq<Row>, fates: seq<Fate>)
    requires |queue| == |fates| && s.head.None? && s.held.None?
    ensures HoldTurn(env, s, Walk(env, s, queue, fates, |queue|))
  {
    var states := States(env, s, queue, fates);
    forall i | 0 <= i < |states| - 1 ensures HoldTurnAt(env, states, i) {
      StepClock(env, states[i], queue[i], queue[i + 1..], fates[i]);
    }
    HoldTurns(env, states, |queue|);
  }

  lemma {:induction false} HoldTurnTwice(env: TickEnv, s: State, t: State, u: State)
    requires HoldTurn(env, s, t) && HoldTurn(env, t, u)
    requires s.head.None? && s.held.None?
    ensures HoldTurn(env, s, u)
  {
    if t.head.Some? {
      assert u.head == t.head && u.clock == t.clock && u.held == t.held;
      if call :| ConsideredOnce(env, s, t, call) {
        assert ConsideredOnce(env, s, u, call);
      }
    } else {
      assert s.clock == t.clock && s.held == t.held;
      if call :| ConsideredOnce(env, t, u, call) {
        assert ConsideredOnce(env, s, u, call);
      }
    }
  }

  /** What the hold budget sees of a tick. */
  ghost predicate SeenAs(m: Machine, env: TickEnv, fates: seq<Fate>, t: HoldTick)
    requires |fates| == |Dispatchable(m.w.rows)|
  {
    var queue := Dispatchable(m.w.rows);
    var end := Walk(env, Begin(m.w, m.clock, m.blocked, m.away), queue, fates, |queue|);
    && t.now == env.now && t.live == Ids(queue)
    && end.clock == Ticked(m.clock, t, env.sched.headWait)
    && (end.held.Some? <==>
        t.call.Some? && Granted(end.clock, t.call.value, env.now, env.sched.headWait, env.sched.maxHold))
    && (end.held.Some? ==> t.call.value.id == end.held.value.id)
  }

  /** Every tick, whatever happens in it, is one step of the hold budget's own clock, and the queue ends
      the tick held exactly when that step granted it. So everything proved about runs of that clock,
      its total bound included, holds of the dispatcher's ticks. */
  lemma {:induction false} EveryTickIsOneHoldTick(m: Machine, env: TickEnv, fates: seq<Fate>) returns (t: HoldTick)
    requires |fates| == |Dispatchable(m.w.rows)|
    ensures SeenAs(m, env, fates, t)
  {
    var queue := Dispatchable(m.w.rows);
    var s := Begin(m.w, m.clock, m.blocked, m.away);
    var end := Walk(env, s, queue, fates, |queue|);
    WalkClock(env, s, queue, fates);
    t := HoldTick(env.now, Ids(queue), None);
    if call :| ConsideredOnce(env, s, end, call) {
      t := t.(call := Some(call));
    }
  }

  // ---- whole runs --------------------------------------------------------

  function TicksIn(evs: seq<Event>, k: nat): nat
    requires k <= |evs|
  {
    if k == 0 then 0 else TicksIn(evs, k - 1) + if evs[k - 1].Tick? then 1 else 0
  }

  predicate OneDispatchers(ev: Event, headWait: real) {
    !ev.Restart? && !ev.Crash? && (ev.Tick? ==> ev.env.sched.headWait == headWait)
  }

  /** No restart, which would forget the clock, and one waiting time before a hold throughout. */
  ghost predicate OneDispatcher(evs: seq<Event>, headWait: real) {
    forall k :: 0 <= k < |evs| ==> OneDispatchers(evs[k], headWait)
  }

  /** The clock after event `k` is where the hold ticks so far have brought it. */
  ghost predicate InStep(ms: seq<Machine>, evs: seq<Event>, ticks: seq<HoldTick>, headWait: real, k: nat)
    requires |ms| == |evs| + 1 && k <= |evs|
  {
    TicksIn(evs, k) <= |ticks| && ms[k].clock == ClockAfter(ms[0].clock, ticks, TicksIn(evs, k), headWait)
  }

  /** If event `k` is a tick, it is seen as its own hold tick. */
  ghost predicate TickSeen(ms: seq<Machine>, evs: seq<Event>, ticks: seq<HoldTick>, k: nat)
    requires |ms| == |evs| + 1 && k < |evs|
  {
    evs[k].Tick? ==>
      && TicksIn(evs, k) < |ticks|
      && |evs[k].fates| == |Dispatchable(ms[k].w.rows)|
      && SeenAs(ms[k], evs[k].env, evs[k].fates, ticks[TicksIn(evs, k)])
  }

  lemma {:induction false} ClockAfterPrefix(c: Clock, ticks: seq<HoldTick>, t: HoldTick, i: nat, headWait: real)
    requires i <= |ticks|
    ensures ClockAfter(c, ticks + [t], i, headWait) == ClockAfter(c, ticks, i, headWait)
  {
    if i > 0 {
      ClockAfterPrefix(c, ticks, t, i - 1, headWait);
    }
  }

  lemma {:induction false} TicksInOrder(evs: seq<Event>, j: nat, k: nat)
    requires j <= k <= |evs|
    ensures TicksIn(evs, j) <= TicksIn(evs, k)
  {
    if j < k {
      TicksInOrder(evs, j, k - 1);
    }
  }

  /** Every run of one dispatcher is a run of the hold budget's clock. */
  lemma {:induction false} RunIsAHoldRun(ms: seq<Machine>, evs: seq<Event>, fix: Fixture, headWait: real, k: nat)
      returns (ticks: seq<HoldTick>)
    requires Run(ms, evs, fix) && OneDispatcher(evs, headWait) && k <= |evs|
    ensures |ticks| == TicksIn(evs, k)
    ensures forall j :: 0 <= j <= k ==> InStep(ms, evs, ticks, headWait, j)
    ensures forall j :: 0 <= j < k ==> TickSeen(ms, evs, ticks, j)
  {
    ticks := [];
    if k > 0 {
      var before := RunIsAHoldRun(ms, evs, fix, headWait, k - 1);
      if evs[k - 1].Tick? {
        var t := TickMovesTheClock(ms, evs, fix, headWait, k - 1);
        ticks := before + [t];
        OneMoreTick(ms, evs, before, t, headWait, k);
      } else {
        OtherEventsLeaveTheClock(ms, evs, fix, headWait, k - 1);
        OneMoreEvent(ms, evs, before, headWait, k);
        ticks := before;
      }
    }
  }

  lemma {:induction false} TickMovesTheClock(
      ms: seq<Machine>, evs: seq<Event>, fix: Fixture, headWait: real, k: nat)
      returns (t: HoldTick)
    requires Run(ms, evs, fix) && OneDispatcher(evs, headWait) && k < |evs| && evs[k].Tick?
    ensures |evs[k].fates| == |Dispatchable(ms[k].w.rows)| && SeenAs(ms[k], evs[k].env, evs[k].fates, t)
    ensures ms[k + 1].clock == Ticked(ms[k].clock, t, headWait)
  {
    assert Happens(ms, evs, fix, k);
    t := EveryTickIsOneHoldTick(ms[k], evs[k].env, evs[k].fates);
  }

  lemma {:induction false} OtherEventsLeaveTheClock(
      ms: seq<Machine>, evs: seq<Event>, fix: Fixture, headWait: real, k: nat)
    requires Run(ms, evs, fix) && OneDispatcher(evs, headWait) && k < |evs| && !evs[k].Tick?
    ensures ms[k + 1].clock == ms[k].clock
  {
    assert Happens(ms, evs, fix, k);
  }

  lemma {:induction false} OneMoreEvent(ms: seq<Machine>, evs: seq<Event>, ticks: seq<HoldTick>, headWait: real, k: nat)
    requires |ms| == |evs| + 1 && 0 < k <= |evs| && |ticks| == TicksIn(evs, k - 1) && !evs[k - 1].Tick?
    requires forall j :: 0 <= j < k ==> InStep(ms, evs, ticks, headWait, j)
    requires forall j :: 0 <= j < k - 1 ==> TickSeen(ms, evs, ticks, j)
    requires ms[k].clock == ms[k - 1].clock
    ensures |ticks| == TicksIn(evs, k)
    ensures forall j :: 0 <= j <= k ==> InStep(ms, evs, ticks, headWait, j)
    ensures forall j :: 0 <= j < k ==> TickSeen(ms, evs, ticks, j)
  {
    assert InStep(ms, evs, ticks, headWait, k - 1);
  }

  lemma {:induction false} OneMoreTick(
      ms: seq<Machine>, evs: seq<Event>, before: seq<HoldTick>, t: HoldTick, headWait: real, k: nat)
    requires |ms| == |evs| + 1 && 0 < k <= |evs| && |before| == TicksIn(evs, k - 1) && evs[k - 1].Tick?
    requires forall j :: 0 <= j < k ==> InStep(ms, evs, before, headWait, j)
    requires forall j :: 0 <= j < k - 1 ==> TickSeen(ms, evs, before, j)
    requires |evs[k - 1].fates| == |Dispatchable(ms[k - 1].w.rows)|
    requires SeenAs(ms[k - 1], evs[k - 1].env, evs[k - 1].fates, t)
    requires ms[k].clock == Ticked(ms[k - 1].clock, t, headWait)
    ensures forall j :: 0 <= j <= k ==> InStep(ms, evs, before + [t], headWait, j)
    ensures forall j :: 0 <= j < k ==> TickSeen(ms, evs, before + [t], j)
  {
    var ticks := before + [t];
    NextInStep(ms, evs, before, t, headWait, k);
    forall j | 0 <= j < k ensures InStep(ms, evs, ticks, headWait, j) {
      assert InStep(ms, evs, before, headWait, j);
      ClockAfterPrefix(ms[0].clock, before, t, TicksIn(evs, j), headWait);
    }
    forall j | 0 <= j < k - 1 ensures TickSeen(ms, evs, ticks, j) {
      assert TickSeen(ms, evs, before, j);
    }
  }

  lemma {:induction false} NextInStep(
      ms: seq<Machine>, evs: seq<Event>, before: seq<HoldTick>, t: HoldTick, headWait: real, k: nat)
    requires |ms| == |evs| + 1 && 0 < k <= |evs| && |before| == TicksIn(evs, k - 1) && evs[k - 1].Tick?
    requires InStep(ms, evs, before, headWait, k - 1)
    requires ms[k].clock == Ticked(ms[k - 1].clock, t, headWait)
    ensures InStep(ms, evs, before + [t], headWait, k)
  {
    ClockAfterPrefix(ms[0].clock, before, t, |before|, headWait);
    assert (before + [t])[|before|] == t;
  }

  /** This event is a tick that leaves the queue held for `id`. */
  ghost predicate QueueHeld(m: Machine, ev: Event, id: JobId) {
    && ev.Tick? && |ev.fates| == |Dispatchable(m.w.rows)|
    && var held := Midway(m, ev.env, ev.fates, |ev.fates|).held; held.Some? && held.value.id == id
  }

  /** Over a run the queue is held for a job at exactly the ticks its budget's clock says, and at none
      once the budget is spent, whatever else the run did in between. */
  lemma {:induction false} HeldExactlyWhenTheBudgetSays(
      ms: seq<Machine>, evs: seq<Event>, ticks: seq<HoldTick>, headWait: real, k: nat, id: JobId)
    requires |ms| == |evs| + 1 && k < |evs| && evs[k].Tick? && evs[k].env.sched.headWait == headWait
    requires InStep(ms, evs, ticks, headWait, k) && TickSeen(ms, evs, ticks, k)
    ensures QueueHeld(ms[k], evs[k], id)
      <==> HeldAt(ms[0].clock, ticks, TicksIn(evs, k), id, headWait, evs[k].env.sched.maxHold)
  {
  }

  // ---- the budget over a run ---------------------------------------------

  /** The last tick before event `k`. */
  function LastTick(evs: seq<Event>, k: nat): (l: Option<nat>)
    requires k <= |evs|
    ensures l.Some? ==> l.value < k && evs[l.value].Tick?
  {
    if k == 0 then None else if evs[k - 1].Tick? then Some(k - 1) else LastTick(evs, k - 1)
  }

  /** What event `k` adds: a tick that follows one which held the queue for `id` adds the time between. */
  ghost function Spell(ms: seq<Machine>, evs: seq<Event>, id: JobId, k: nat): real
    requires |ms| == |evs| + 1 && k < |evs|
  {
    var last := LastTick(evs, k);
    if evs[k].Tick? && last.Some? && QueueHeld(ms[last.value], evs[last.value], id)
    then evs[k].env.now - evs[last.value].env.now else 0.0
  }

  /** How long the queue was held for `id` up to event `k`: each tick that holds it holds until the next. */
  ghost function HeldSpan(ms: seq<Machine>, evs: seq<Event>, id: JobId, k: nat): real
    requires |ms| == |evs| + 1 && k <= |evs|
  {
    if k == 0 then 0.0 else HeldSpan(ms, evs, id, k - 1) + Spell(ms, evs, id, k - 1)
  }

  lemma {:induction false} LastTickNumber(evs: seq<Event>, k: nat)
    requires k <= |evs|
    ensures LastTick(evs, k).None? <==> TicksIn(evs, k) == 0
    ensures LastTick(evs, k).Some? ==> TicksIn(evs, LastTick(evs, k).value) == TicksIn(evs, k) - 1
  {
    if k > 0 {
      LastTickNumber(evs, k - 1);
    }
  }

  /** The event that is tick number `n`. */
  lemma {:induction false} EventOfTick(evs: seq<Event>, n: nat, k: nat) returns (e: nat)
    requires k <= |evs| && n < TicksIn(evs, k)
    ensures e < k && evs[e].Tick? && TicksIn(evs, e) == n
  {
    if n < TicksIn(evs, k - 1) {
      e := EventOfTick(evs, n, k - 1);
    } else {
      e := k - 1;
    }
  }

  /** `ticks` is the run as the hold budget sees it. */
  ghost predicate SeesRun(ms: seq<Machine>, evs: seq<Event>, ticks: seq<HoldTick>, headWait: real) {
    && |ms| == |evs| + 1 && |ticks| == TicksIn(evs, |evs|)
    && (forall j :: 0 <= j <= |evs| ==> InStep(ms, evs, ticks, headWait, j))
    && (forall j :: 0 <= j < |evs| ==> TickSeen(ms, evs, ticks, j))
  }

  /** What the hold budget calls held time, up to event `k` of the run. */
  ghost function HeldSoFar(
      ms: seq<Machine>, evs: seq<Event>, ticks: seq<HoldTick>, id: JobId, headWait: real, maxHold: real, k: nat): real
    requires |ms| == |evs| + 1 && k <= |evs| && TicksIn(evs, k) <= |ticks|
  {
    if TicksIn(evs, k) == 0 then 0.0
    else HeldTime(ms[0].clock, ticks, TicksIn(evs, k) - 1, id, headWait, maxHold)
  }

  lemma {:induction false} SpanIsHeldTime(
      ms: seq<Machine>, evs: seq<Event>, ticks: seq<HoldTick>, id: JobId, headWait: real, maxHold: real, k: nat)
    requires SeesRun(ms, evs, ticks, headWait) && k <= |evs|
    requires OneDispatcher(evs, headWait) && OneBudget(evs, maxHold)
    ensures TicksIn(evs, k) <= |ticks|
    ensures HeldSpan(ms, evs, id, k) == HeldSoFar(ms, evs, ticks, id, headWait, maxHold, k)
  {
    TicksInOrder(evs, k, |evs|);
    if k > 0 {
      SpanIsHeldTime(ms, evs, ticks, id, headWait, maxHold, k - 1);
      SpellIsCharged(ms, evs, ticks, id, headWait, maxHold, k - 1);
    }
  }

  lemma {:induction false} SpellIsCharged(
      ms: seq<Machine>, evs: seq<Event>, ticks: seq<HoldTick>, id: JobId, headWait: real, maxHold: real, k: nat)
    requires SeesRun(ms, evs, ticks, headWait) && k < |evs| && TicksIn(evs, k + 1) <= |ticks|
    requires OneDispatcher(evs, headWait) && OneBudget(evs, maxHold)
    ensures HeldSoFar(ms, evs, ticks, id, headWait, maxHold, k + 1)
         == HeldSoFar(ms, evs, ticks, id, headWait, maxHold, k) + Spell(ms, evs, id, k)
  {
    LastTickNumber(evs, k);
    if evs[k].Tick? && TicksIn(evs, k) > 0 {
      var last := LastTick(evs, k).value;
      TickTime(ms, evs, ticks, headWait, k);
      TickTime(ms, evs, ticks, headWait, last);
      HeldAsBudgeted(ms, evs, ticks, id, headWait, maxHold, last);
    }
  }

  lemma {:induction false} TickTime(
      ms: seq<Machine>, evs: seq<Event>, ticks: seq<HoldTick>, headWait: real, k: nat)
    requires SeesRun(ms, evs, ticks, headWait) && k < |evs| && evs[k].Tick?
    ensures TicksIn(evs, k) < |ticks| && ticks[TicksIn(evs, k)].now == evs[k].env.now
  {
    assert TickSeen(ms, evs, ticks, k);
  }

  lemma {:induction false} HeldAsBudgeted(
      ms: seq<Machine>, evs: seq<Event>, ticks: seq<HoldTick>, id: JobId, headWait: real, maxHold: real, k: nat)
    requires SeesRun(ms, evs, ticks, headWait) && k < |evs| && evs[k].Tick?
    requires OneDispatcher(evs, headWait) && OneBudget(evs, maxHold)
    ensures TicksIn(evs, k) < |ticks|
    ensures QueueHeld(ms[k], evs[k], id) <==> HeldAt(ms[0].clock, ticks, TicksIn(evs, k), id, headWait, maxHold)
  {
    assert TickSeen(ms, evs, ticks, k) && InStep(ms, evs, ticks, headWait, k);
    HeldExactlyWhenTheBudgetSays(ms, evs, ticks, headWait, k, id);
  }

  /** One hold budget throughout. */
  ghost predicate OneBudget(evs: seq<Event>, maxHold: real) {
    forall k :: 0 <= k < |evs| && evs[k].Tick? ==> evs[k].env.sched.maxHold == maxHold
  }

  /** The job waits at every tick: one stay in the queue. */
  ghost predicate StaysQueued(ms: seq<Machine>, evs: seq<Event>, id: JobId)
    requires |ms| == |evs| + 1
  {
    forall k :: 0 <= k < |evs| && evs[k].Tick? ==> id in Ids(Dispatchable(ms[k].w.rows))
  }

  /** Ticks come in order, no further apart than `gap`. */
  ghost predicate Ticking(evs: seq<Event>, gap: real) {
    && (forall j, k :: 0 <= j < k < |evs| && evs[j].Tick? && evs[k].Tick? ==> evs[j].env.now <= evs[k].env.now)
    && (forall k :: 0 <= k < |evs| ==> SoonAfter(evs, k, gap))
  }

  ghost predicate SoonAfter(evs: seq<Event>, k: nat, gap: real)
    requires k < |evs|
  {
    var last := LastTick(evs, k);
    evs[k].Tick? && last.Some? ==> evs[k].env.now - evs[last.value].env.now <= gap
  }

  /** Hold tick `n` is an event of the run, seen at that event's time. */
  lemma {:induction false} TickNumbered(
      ms: seq<Machine>, evs: seq<Event>, ticks: seq<HoldTick>, n: nat, headWait: real)
      returns (e: nat)
    requires SeesRun(ms, evs, ticks, headWait) && n < |ticks|
    ensures e < |evs| && evs[e].Tick? && TicksIn(evs, e) == n
    ensures ticks[n].now == evs[e].env.now && ticks[n].live == Ids(Dispatchable(ms[e].w.rows))
  {
    e := EventOfTick(evs, n, |evs|);
    assert TickSeen(ms, evs, ticks, e);
  }

  lemma {:induction false} EqualNumbersAreOneTick(evs: seq<Event>, e: nat, f: nat)
    requires e < |evs| && f < |evs| && evs[e].Tick? && evs[f].Tick? && TicksIn(evs, e) <= TicksIn(evs, f)
    ensures e <= f
  {
    if f < e {
      TicksInOrder(evs, f + 1, e);
    }
  }

  lemma {:induction false} RunIsOneStay(
      ms: seq<Machine>, evs: seq<Event>, ticks: seq<HoldTick>, id: JobId, headWait: real, gap: real)
    requires SeesRun(ms, evs, ticks, headWait) && StaysQueued(ms, evs, id) && Ticking(evs, gap)
    ensures OneStay(ticks, id)
    ensures forall i :: 0 <= i < |ticks| - 1 ==> ticks[i + 1].now - ticks[i].now <= gap
  {
    forall i | 0 <= i < |ticks| ensures id in ticks[i].live {
      var e := TickNumbered(ms, evs, ticks, i, headWait);
    }
    forall i, j | 0 <= i <= j < |ticks| ensures ticks[i].now <= ticks[j].now {
      var e := TickNumbered(ms, evs, ticks, i, headWait);
      var f := TickNumbered(ms, evs, ticks, j, headWait);
      EqualNumbersAreOneTick(evs, e, f);
    }
    forall i | 0 <= i < |ticks| - 1 ensures ticks[i + 1].now - ticks[i].now <= gap {
      NextTickIsNear(ms, evs, ticks, i, headWait, gap);
    }
  }

  lemma {:induction false} NextTickIsNear(
      ms: seq<Machine>, evs: seq<Event>, ticks: seq<HoldTick>, i: nat, headWait: real, gap: real)
    requires SeesRun(ms, evs, ticks, headWait) && Ticking(evs, gap) && i + 1 < |ticks|
    ensures ticks[i + 1].now - ticks[i].now <= gap
  {
    var f := TickNumbered(ms, evs, ticks, i + 1, headWait);
    LastTickNumber(evs, f);
    var e := TickNumbered(ms, evs, ticks, i, headWait);
    var last := LastTick(evs, f).value;
    EqualNumbersAreOneTick(evs, e, last);
    EqualNumbersAreOneTick(evs, last, e);
    assert SoonAfter(evs, f, gap);
  }

  /** The budget over a run of the dispatcher. Whatever happens between its ticks, as long as it is not
      restarted, the time the queue is held for a job in one stay is below the budget plus one gap between
      ticks. */
  lemma {:induction false} HoldOverARunIsBounded(
      ms: seq<Machine>, evs: seq<Event>, fix: Fixture, id: JobId, headWait: real, maxHold: real, gap: real)
    requires Run(ms, evs, fix) && OneDispatcher(evs, headWait) && OneBudget(evs, maxHold)
    requires StaysQueued(ms, evs, id) && Ticking(evs, gap) && maxHold >= 0.0 && gap >= 0.0
    requires id !in ms[0].clock.since && id !in ms[0].clock.spent
    ensures HeldSpan(ms, evs, id, |evs|) <= maxHold + gap
    ensures HeldSpan(ms, evs, id, |evs|) > 0.0 ==> HeldSpan(ms, evs, id, |evs|) < maxHold + gap
  {
    var ticks := RunIsAHoldRun(ms, evs, fix, headWait, |evs|);
    assert SeesRun(ms, evs, ticks, headWait);
    SpanIsHeldTime(ms, evs, ticks, id, headWait, maxHold, |evs|);
    RunIsOneStay(ms, evs, ticks, id, headWait, gap);
    if |ticks| > 0 {
      TotalHoldIsBounded(ms[0].clock, ticks, |ticks| - 1, id, headWait, maxHold, gap);
    }
  }
}
