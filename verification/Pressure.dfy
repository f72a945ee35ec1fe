/** The memory-pressure guard: how many bad readings it takes to stop a job, and which job.

    The dispatcher counts consecutive readings under the floor as strikes. Readings between the two
    thresholds neither add a strike nor clear them. */
module Pressure {
  import opened Wrappers
  import opened QueueRows
  import opened Preemption

  datatype PressurePolicy = PressurePolicy(recoverPercent: real, floorPercent: real, samples: nat)

  predicate Relieved(policy: PressurePolicy, free: Option<real>) {
    free.Some? && free.value >= policy.recoverPercent
  }

  predicate Low(policy: PressurePolicy, free: Option<real>) {
    free.Some? && free.value < policy.recoverPercent && free.value < policy.floorPercent
  }

  /** This reading is one too many: the guard acts and starts counting again. */
  predicate Acts(policy: PressurePolicy, strikes: nat, free: Option<real>) {
    Low(policy, free) && strikes + 1 >= policy.samples
  }

  function StrikesNext(policy: PressurePolicy, strikes: nat, free: Option<real>): nat {
    if Relieved(policy, free) || Acts(policy, strikes, free) then 0
    else if Low(policy, free) then strikes + 1
    else strikes
  }

  // ---- over runs ---------------------------------------------------------

  function StrikesAfter(policy: PressurePolicy, readings: seq<Option<real>>, k: nat): nat
    requires k <= |readings|
  {
    if k == 0 then 0 else StrikesNext(policy, StrikesAfter(policy, readings, k - 1), readings[k - 1])
  }

  predicate ActsAt(policy: PressurePolicy, readings: seq<Option<real>>, k: nat)
    requires k < |readings|
  {
    Acts(policy, StrikesAfter(policy, readings, k), readings[k])
  }

  function Actions(policy: PressurePolicy, readings: seq<Option<real>>, k: nat): nat
    requires k <= |readings|
  {
    if k == 0 then 0 else Actions(policy, readings, k - 1) + if ActsAt(policy, readings, k - 1) then 1 else 0
  }

  /** Readings under the floor among those numbered `i` up to `k`. */
  function LowReadings(policy: PressurePolicy, readings: seq<Option<real>>, i: nat, k: nat): nat
    requires i <= k <= |readings|
  {
    if i == k then 0
    else LowReadings(policy, readings, i, k - 1) + if Low(policy, readings[k - 1]) then 1 else 0
  }

  /** Where counting last began again before reading `k`: after a recovery or an action, or at the start. */
  function LastReset(policy: PressurePolicy, readings: seq<Option<real>>, k: nat): (i: nat)
    requires k <= |readings|
    ensures i <= k
  {
    if k == 0 then 0
    else if Relieved(policy, readings[k - 1]) || ActsAt(policy, readings, k - 1) then k
    else LastReset(policy, readings, k - 1)
  }

  /** Strikes are exactly the readings under the floor since the last recovery or action. */
  lemma {:induction false} StrikesCountLowReadings(policy: PressurePolicy, readings: seq<Option<real>>, k: nat)
    requires k <= |readings|
    ensures StrikesAfter(policy, readings, k)
         == LowReadings(policy, readings, LastReset(policy, readings, k), k)
  {
    if k > 0 {
      StrikesCountLowReadings(policy, readings, k - 1);
    }
  }

  /** Every action is paid for: each took its full count of readings under the floor, and no reading
      pays for two. */
  lemma {:induction false} ActionsArePaidFor(policy: PressurePolicy, readings: seq<Option<real>>, k: nat)
    requires k <= |readings|
    ensures Actions(policy, readings, k) * policy.samples + StrikesAfter(policy, readings, k)
         <= LowReadings(policy, readings, 0, k)
    ensures policy.samples > 0 ==> StrikesAfter(policy, readings, k) < policy.samples
  {
    if k > 0 {
      ActionsArePaidFor(policy, readings, k - 1);
      if ActsAt(policy, readings, k - 1) {
        OneMore(Actions(policy, readings, k - 1), policy.samples);
      }
    }
  }

  lemma {:induction false} OneMore(n: nat, m: nat)
    ensures (n + 1) * m == n * m + m
  {
  }

  // ---- which job ---------------------------------------------------------

  predicate Relievable(active: set<JobId>, row: Row) {
    row.state == Running && row.id in active && row.preemptible && !row.preemptRequested
  }

  /** The newest job that may be stopped; among equally new ones the first in dispatch order. */
  function PressureVictim(rows: seq<Row>, active: set<JobId>, now: real): Option<Row> {
    if rows == [] then None
    else
      var n := |rows| - 1;
      var best := PressureVictim(rows[..n], active, now);
      if Relievable(active, rows[n]) && (best.None? || RanFor(now, rows[n]) < RanFor(now, best.value))
      then Some(rows[n]) else best
  }

  /** Only a running job of this dispatcher that opted in and is not already stopping is ever chosen, and
      of those one that loses the least work; nothing is chosen exactly when there is no such job. */
  lemma {:induction false} PressureVictimIsNewest(rows: seq<Row>, active: set<JobId>, now: real)
    ensures var victim := PressureVictim(rows, active, now);
      && (victim.None? <==> forall r :: r in rows ==> !Relievable(active, r))
      && (victim.Some? ==> victim.value in rows && Relievable(active, victim.value))
      && (victim.Some? ==>
            forall r :: r in rows && Relievable(active, r) ==> RanFor(now, victim.value) <= RanFor(now, r))
  {
    if rows != [] {
      var n := |rows| - 1;
      PressureVictimIsNewest(rows[..n], active, now);
      assert rows == rows[..n] + [rows[n]];
    }
  }
}
