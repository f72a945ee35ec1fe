/** The hold budget: how long, in all, the queue may be held for one job during its stay.

    The dispatcher keeps two dictionaries, when the current stretch of holding began and how much
    earlier stretches used. This module gives them as a value and proves the budget over whole runs. */
module HoldClock {
  import opened Wrappers
  import opened QueueRows

  datatype Clock = Clock(since: map<JobId, real>, spent: map<JobId, real>)

  /** What one tick asks about its first refused job. */
  datatype HoldCall = HoldCall(id: JobId, waited: real, futile: bool)

  function Banked(c: Clock, id: JobId): real {
    if id in c.spent then c.spent[id] else 0.0
  }

  /** Hold time used so far, the running stretch included. */
  function Used(c: Clock, id: JobId, now: real): real {
    Banked(c, id) + if id in c.since then now - c.since[id] else 0.0
  }

  function Paused(c: Clock, id: JobId, now: real): Clock {
    if id in c.since then Clock(c.since - {id}, c.spent[id := Banked(c, id) + (now - c.since[id])]) else c
  }

  /** Entries of jobs that left the queue are dropped. */
  function Pruned(c: Clock, live: set<JobId>): Clock {
    Clock(map id | id in c.since && id in live :: c.since[id], map id | id in c.spent && id in live :: c.spent[id])
  }

  function Resumed(c: Clock, id: JobId, now: real): Clock {
    if id in c.since then c else c.(since := c.since[id := now])
  }

  function Considered(c: Clock, call: HoldCall, now: real, headWait: real): Clock {
    if call.waited < headWait || call.futile then Paused(c, call.id, now) else Resumed(c, call.id, now)
  }

  /** Whether the queue is held, asked of the clock just considered. */
  predicate Granted(c: Clock, call: HoldCall, now: real, headWait: real, maxHold: real) {
    call.waited >= headWait && !call.futile && Used(c, call.id, now) < maxHold
  }

  // ---- runs --------------------------------------------------------------

  /** One tick of the scheduler as the hold sees it: at most one job is ever considered. */
  datatype HoldTick = HoldTick(now: real, live: set<JobId>, call: Option<HoldCall>)

  function Ticked(c: Clock, t: HoldTick, headWait: real): Clock {
    var pruned := Pruned(c, t.live);
    if t.call.None? then pruned else Considered(pruned, t.call.value, t.now, headWait)
  }

  function ClockAfter(c: Clock, ticks: seq<HoldTick>, k: nat, headWait: real): Clock
    requires k <= |ticks|
  {
    if k == 0 then c else Ticked(ClockAfter(c, ticks, k - 1, headWait), ticks[k - 1], headWait)
  }

  /** Tick `k` leaves the queue held for `id`. */
  predicate HeldAt(c: Clock, ticks: seq<HoldTick>, k: nat, id: JobId, headWait: real, maxHold: real)
    requires k < |ticks|
  {
    var call := ticks[k].call;
    call.Some? && call.value.id == id
    && Granted(ClockAfter(c, ticks, k + 1, headWait), call.value, ticks[k].now, headWait, maxHold)
  }

  /** Time spent held for `id` from the first tick up to tick `k`: each holding tick holds until the next. */
  function HeldTime(c: Clock, ticks: seq<HoldTick>, k: nat, id: JobId, headWait: real, maxHold: real): real
    requires k < |ticks|
  {
    if k == 0 then 0.0
    else
      HeldTime(c, ticks, k - 1, id, headWait, maxHold)
      + if HeldAt(c, ticks, k - 1, id, headWait, maxHold) then ticks[k].now - ticks[k - 1].now else 0.0
  }

  /** The clock never runs backwards and the job stays queued throughout. */
  ghost predicate OneStay(ticks: seq<HoldTick>, id: JobId) {
    && (forall i :: 0 <= i < |ticks| ==> id in ticks[i].live)
    && (forall i, j :: 0 <= i <= j < |ticks| ==> ticks[i].now <= ticks[j].now)
  }

  /** Banking, pruning and considering happen at an instant: none of them moves the total. */
  lemma {:induction false} TickKeepsUsed(c: Clock, t: HoldTick, id: JobId, headWait: real)
    requires id in t.live
    ensures Used(Ticked(c, t, headWait), id, t.now) == Used(c, id, t.now)
  {
  }

  /** Used hold time never goes down during one stay: idle spells, futile spells and other heads
      taking over renew nothing. */
  lemma {:induction false} UsedNeverDecreases(
      c: Clock, ticks: seq<HoldTick>, i: nat, j: nat, id: JobId, headWait: real)
    requires OneStay(ticks, id) && i <= j < |ticks|
    ensures Used(ClockAfter(c, ticks, i + 1, headWait), id, ticks[i].now)
         <= Used(ClockAfter(c, ticks, j + 1, headWait), id, ticks[j].now)
  {
    if i < j {
      UsedNeverDecreases(c, ticks, i, j - 1, id, headWait);
      TickKeepsUsed(ClockAfter(c, ticks, j, headWait), ticks[j], id, headWait);
      assert ticks[j - 1].now <= ticks[j].now;
    }
  }

  /** A spent budget stays spent: the queue is never held for this job again. */
  lemma {:induction false} SpentBudgetIsFinal(
      c: Clock, ticks: seq<HoldTick>, i: nat, j: nat, id: JobId, headWait: real, maxHold: real)
    requires OneStay(ticks, id) && i <= j < |ticks|
    requires Used(ClockAfter(c, ticks, i + 1, headWait), id, ticks[i].now) >= maxHold
    ensures !HeldAt(c, ticks, j, id, headWait, maxHold)
  {
    UsedNeverDecreases(c, ticks, i, j, id, headWait);
  }

  /** Every second of holding is charged, so holding never outruns what the clock says was used. */
  lemma {:induction false} HoldingIsCharged(
      c: Clock, ticks: seq<HoldTick>, k: nat, id: JobId, headWait: real, maxHold: real)
    requires OneStay(ticks, id) && k < |ticks|
    requires Used(c, id, ticks[0].now) >= 0.0
    ensures HeldTime(c, ticks, k, id, headWait, maxHold)
         <= Used(ClockAfter(c, ticks, k + 1, headWait), id, ticks[k].now)
  {
    TickKeepsUsed(ClockAfter(c, ticks, k, headWait), ticks[k], id, headWait);
    if k == 0 {
      assert ClockAfter(c, ticks, 0, headWait) == c;
    } else {
      HoldingIsCharged(c, ticks, k - 1, id, headWait, maxHold);
      assert ticks[k - 1].now <= ticks[k].now;
    }
  }

  /** The whole-stay bound. However the run mixes idle, futile and holding ticks, the time the queue
      was held for one job is below its budget plus the gap after the last tick that held. */
  lemma {:induction false} TotalHoldIsBounded(
      c: Clock, ticks: seq<HoldTick>, k: nat, id: JobId, headWait: real, maxHold: real, gap: real)
    requires OneStay(ticks, id) && k < |ticks|
    requires Used(c, id, ticks[0].now) >= 0.0
    requires maxHold >= 0.0 && gap >= 0.0
    requires forall i :: 0 <= i < k ==> ticks[i + 1].now - ticks[i].now <= gap
    ensures HeldTime(c, ticks, k, id, headWait, maxHold) <= maxHold + gap
    ensures HeldTime(c, ticks, k, id, headWait, maxHold) > 0.0
      ==> HeldTime(c, ticks, k, id, headWait, maxHold) < maxHold + gap
  {
    if k > 0 {
      if HeldAt(c, ticks, k - 1, id, headWait, maxHold) {
        HoldingIsCharged(c, ticks, k - 1, id, headWait, maxHold);
      } else {
        TotalHoldIsBounded(c, ticks, k - 1, id, headWait, maxHold, gap);
      }
    }
  }
}
