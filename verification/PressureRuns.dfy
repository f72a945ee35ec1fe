/** The memory-pressure guard over whole runs: how many readings under the floor every stop has cost. */
module PressureRuns {
  import opened Wrappers
  import opened QueueRows
  import opened World
  import opened Entitlement
  import opened Pressure
  import opened Runs
  import Preemption

  /** One policy throughout. */
  ghost predicate OnePolicy(evs: seq<Event>, policy: PressurePolicy) {
    forall k :: 0 <= k < |evs| && evs[k].Sample? ==> evs[k].policy == policy
  }

  /** The readings this dispatcher has taken by event `k`. */
  function ReadingsBy(evs: seq<Event>, k: nat): seq<Option<real>>
    requires k <= |evs|
  {
    if k == 0 || Replaces(evs[k - 1]) then []
    else ReadingsBy(evs, k - 1) + if evs[k - 1].Sample? then [evs[k - 1].free] else []
  }

  /** How often the guard has acted by event `k`, whichever dispatcher it was. */
  ghost function ActionsBy(ms: seq<Machine>, evs: seq<Event>, k: nat): nat
    requires |ms| == |evs| + 1 && k <= |evs|
  {
    if k == 0 then 0
    else
      ActionsBy(ms, evs, k - 1)
      + if evs[k - 1].Sample? && Acts(evs[k - 1].policy, ms[k - 1].strikes, evs[k - 1].free) then 1 else 0
  }

  /** Readings under the floor by event `k`. */
  function LowBy(evs: seq<Event>, k: nat): nat
    requires k <= |evs|
  {
    if k == 0 then 0
    else LowBy(evs, k - 1) + if evs[k - 1].Sample? && Low(evs[k - 1].policy, evs[k - 1].free) then 1 else 0
  }

  lemma {:induction false} StrikesPrefix(
      policy: PressurePolicy, readings: seq<Option<real>>, more: seq<Option<real>>, k: nat)
    requires k <= |readings|
    ensures StrikesAfter(policy, readings + more, k) == StrikesAfter(policy, readings, k)
  {
    if k > 0 {
      StrikesPrefix(policy, readings, more, k - 1);
    }
  }

  /** What an event does to the strike count. */
  lemma {:induction false} StrikesStep(ms: seq<Machine>, evs: seq<Event>, fix: Fixture, k: nat)
    requires Run(ms, evs, fix) && k < |evs|
    ensures ms[k + 1].strikes
         == if Replaces(evs[k]) then 0
            else if evs[k].Sample? then StrikesNext(evs[k].policy, ms[k].strikes, evs[k].free) else ms[k].strikes
  {
    assert Happens(ms, evs, fix, k);
  }

  /** In a run the strike count is that of the readings this dispatcher has taken: the number of those under the
      floor since the last recovery or action, and none at first. */
  lemma {:induction false} StrikesAreOfTheReadings(
      ms: seq<Machine>, evs: seq<Event>, fix: Fixture, policy: PressurePolicy, k: nat)
    requires Run(ms, evs, fix) && ms[0].strikes == 0 && OnePolicy(evs, policy) && k <= |evs|
    ensures var readings := ReadingsBy(evs, k);
      && ms[k].strikes == StrikesAfter(policy, readings, |readings|)
      && ms[k].strikes == LowReadings(policy, readings, LastReset(policy, readings, |readings|), |readings|)
  {
    if k > 0 {
      StrikesAreOfTheReadings(ms, evs, fix, policy, k - 1);
      StrikesStep(ms, evs, fix, k - 1);
      if !Replaces(evs[k - 1]) && evs[k - 1].Sample? {
        var before := ReadingsBy(evs, k - 1);
        StrikesPrefix(policy, before, [evs[k - 1].free], |before|);
      } else if !Replaces(evs[k - 1]) {
        assert ReadingsBy(evs, k - 1) + [] == ReadingsBy(evs, k - 1);
      }
    }
    StrikesCountLowReadings(policy, ReadingsBy(evs, k), |ReadingsBy(evs, k)|);
  }

  /** Over any run, restarts and crashes included, every action of the guard took its full count of readings
      under the floor, and no reading pays for two. */
  lemma {:induction false} StopsArePaidFor(
      ms: seq<Machine>, evs: seq<Event>, fix: Fixture, policy: PressurePolicy, k: nat)
    requires Run(ms, evs, fix) && ms[0].strikes == 0 && OnePolicy(evs, policy) && k <= |evs|
    ensures ActionsBy(ms, evs, k) * policy.samples + ms[k].strikes <= LowBy(evs, k)
  {
    if k > 0 {
      StopsArePaidFor(ms, evs, fix, policy, k - 1);
      StrikesStep(ms, evs, fix, k - 1);
      if evs[k - 1].Sample? {
        OneMore(ActionsBy(ms, evs, k - 1), policy.samples);
      }
    }
  }

  /** What one reading does to the queue: nothing, or a stop asked of one job, running here, opted in, not yet
      stopping, and of all such jobs one that has run shortest. */
  lemma {:induction false} OneIsStoppedAtMost(m: Machine, policy: PressurePolicy, free: Option<real>, now: real)
    ensures var rows, active := Sampled(m, policy, free, now).w.rows, m.w.Active();
      || rows == m.w.rows
      || exists r :: r in m.w.rows && Relievable(active, r) && Acts(policy, m.strikes, free)
           && rows == Preemption.Marked(m.w.rows, {r.id}, None)
           && forall other :: other in m.w.rows && Relievable(active, other) ==>
                Preemption.RanFor(now, r) <= Preemption.RanFor(now, other)
  {
    PressureVictimIsNewest(m.w.rows, m.w.Active(), now);
  }

  // ---- one reading, in figures -------------------------------------------

  ghost predicate MayGo(w: World, row: Row) {
    row in w.rows && row.state == Running && FollowedHere(w, row.id) && row.preemptible && !row.preemptRequested
  }

  /** Stopping `a` loses no more work than stopping `b`. */
  predicate NoOlder(now: real, a: Row, b: Row) {
    || a.startedAt.None? || now <= a.startedAt.value
    || (b.startedAt.Some? && b.startedAt.value <= a.startedAt.value)
  }

  /** One job that may go, and has lost least, is asked to stop for nobody in particular; no other row changes. */
  ghost predicate OneWasAsked(w: World, rows: seq<Row>, now: real, victim: Row) {
    && MayGo(w, victim) && (forall other :: MayGo(w, other) ==> NoOlder(now, victim, other))
    && forall row :: row in w.rows ==> Find(rows, row.id) == Some(
         if row == victim then row.(preemptRequested := true, preemptBy := None) else row)
  }

  predicate UnderBoth(policy: PressurePolicy, free: real) {
    free < policy.recoverPercent && free < policy.floorPercent
  }

  /** What a reading does. Recovered, it clears the strikes; between the thresholds, or missing, it does nothing;
      under both it is one strike more, and the strike that makes up the count clears them and asks a job to stop,
      if there is one that may go. */
  lemma {:induction false} GuardFollowsTheReading(m: Machine, policy: PressurePolicy, free: Option<real>, now: real)
    requires Distinct(m.w.rows)
    ensures var m' := Sampled(m, policy, free, now);
      if free.None? then m' == m
      else if free.value >= policy.recoverPercent then m' == m.(strikes := 0)
      else if !UnderBoth(policy, free.value) then m' == m
      else if m.strikes + 1 < policy.samples then m' == m.(strikes := m.strikes + 1)
      else
        && m' == m.(strikes := 0, w := m.w.(rows := m'.w.rows))
        && if exists row :: MayGo(m.w, row) then exists victim :: OneWasAsked(m.w, m'.w.rows, now, victim)
           else m'.w.rows == m.w.rows
  {
    if free.Some? && UnderBoth(policy, free.value) && m.strikes + 1 >= policy.samples {
      AsksTheNewest(m, policy, free, now);
    }
  }

  lemma {:induction false} MayGoMeansRelievable(w: World, row: Row)
    ensures MayGo(w, row) <==> row in w.rows && Relievable(w.Active(), row)
  {
    ActiveAreFollowed(w, row.id);
  }

  lemma {:induction false} AsksTheNewest(m: Machine, policy: PressurePolicy, free: Option<real>, now: real)
    requires Distinct(m.w.rows) && Acts(policy, m.strikes, free)
    ensures var rows, victim := Sampled(m, policy, free, now).w.rows, PressureVictim(m.w.rows, m.w.Active(), now);
      if victim.None? then rows == m.w.rows && forall row :: !MayGo(m.w, row)
      else OneWasAsked(m.w, rows, now, victim.value)
  {
    var victim := PressureVictim(m.w.rows, m.w.Active(), now);
    PressureVictimIsNewest(m.w.rows, m.w.Active(), now);
    forall row ensures MayGo(m.w, row) <==> row in m.w.rows && Relievable(m.w.Active(), row) {
      MayGoMeansRelievable(m.w, row);
    }
    if victim.Some? {
      var rows := Preemption.Marked(m.w.rows, {victim.value.id}, None);
      forall row | row in m.w.rows ensures Find(rows, row.id) == Some(
        if row == victim.value then row.(preemptRequested := true, preemptBy := None) else row)
      {
        ListedMeansFound(m.w.rows, row);
        ListedMeansFound(m.w.rows, victim.value);
        MarkingFlags(m.w.rows, {victim.value.id}, None, row.id);
      }
    }
  }
}
