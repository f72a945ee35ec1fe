/** The queue forecast: running and waiting jobs laid out over slots, first free slot first.

    A duration nobody knows makes the slot it occupies unknown from then on. */
module Forecast {
  import opened Wrappers
  import opened QueueRows
  import opened Jobs

  type Seconds = r: real | 0.0 <= r

  /** A job to lay out; `estimate` is what is left of a running one and the whole of a waiting one. */
  datatype Job = Job(id: JobId, state: JobState, estimate: Option<Seconds>, blocked: bool)

  /** One job's projected interval on its slot. */
  datatype Bar = Bar(id: JobId, slot: nat, start: Option<Seconds>, finish: Option<Seconds>)

  /** When each slot frees, and the bars so far, running jobs first. */
  datatype Chart = Chart(freeAt: seq<Option<Seconds>>, bars: seq<Bar>)

  // ---- the layout as a function ------------------------------------------

  /** The first of the earliest-freeing known slots among the first `k`. */
  function Soonest(freeAt: seq<Option<Seconds>>, k: nat): (best: Option<nat>)
    requires k <= |freeAt|
    ensures best.Some? ==> best.value < k && freeAt[best.value].Some?
  {
    if k == 0 then None
    else
      var best := Soonest(freeAt, k - 1);
      if freeAt[k - 1].Some? && (best.None? || freeAt[k - 1].value < freeAt[best.value].value)
      then Some(k - 1) else best
  }

  /** When a job on a slot freeing at `free` starts. A slot free at once is no promise for a job the
      dispatcher has refused. */
  function StartOn(free: Option<Seconds>, blocked: bool): Option<Seconds> {
    if free.Some? && free.value <= 0.0 && blocked then None else free
  }

  function FinishAfter(start: Option<Seconds>, total: Option<Seconds>): Option<Seconds> {
    if start.None? || total.None? then None else Some(start.value + total.value)
  }

  function LayOne(chart: Chart, job: Job): Chart
    requires chart.freeAt != []
  {
    var best := Soonest(chart.freeAt, |chart.freeAt|);
    var slot := best.GetOr<nat>(0);
    var start := if best.None? then None else StartOn(chart.freeAt[slot], job.blocked);
    var finish := FinishAfter(start, job.estimate);
    Chart(chart.freeAt[slot := finish], chart.bars + [Bar(job.id, slot, start, finish)])
  }

  predicate Waits(job: Job) {
    job.state == JobState.Queued || job.state == Preparing
  }

  /** Each running job on a slot of its own. */
  function Occupied(jobs: seq<Job>, k: nat): (chart: Chart)
    requires k <= |jobs|
    ensures |chart.freeAt| == |chart.bars|
  {
    if k == 0 then Chart([], [])
    else
      var before := Occupied(jobs, k - 1);
      var job := jobs[k - 1];
      if job.state != JobState.Running then before
      else Chart(before.freeAt + [job.estimate], before.bars + [Bar(job.id, |before.freeAt|, Some(0.0), job.estimate)])
  }

  function Padded(freeAt: seq<Option<Seconds>>, slots: nat): (r: seq<Option<Seconds>>)
    ensures |r| >= slots && |r| >= |freeAt|
    decreases slots - |freeAt|
  {
    if |freeAt| < slots then Padded(freeAt + [Some(0.0)], slots) else freeAt
  }

  function Opening(slots: nat, jobs: seq<Job>): Chart {
    var occupied := Occupied(jobs, |jobs|);
    occupied.(freeAt := Padded(occupied.freeAt, slots))
  }

  /** The chart once the waiting jobs among the first `k` have been laid out. */
  function LaidOut(slots: nat, jobs: seq<Job>, k: nat): (chart: Chart)
    requires 1 <= slots && k <= |jobs|
    ensures |chart.freeAt| == |Opening(slots, jobs).freeAt|
  {
    if k == 0 then Opening(slots, jobs)
    else
      var before := LaidOut(slots, jobs, k - 1);
      if Waits(jobs[k - 1]) then LayOne(before, jobs[k - 1]) else before
  }

  // ---- the program -------------------------------------------------------

  method Forecast(slotsSetting: int, jobs: seq<Job>) returns (chart: Chart)
    ensures chart == LaidOut(if slotsSetting < 1 then 1 else slotsSetting, jobs, |jobs|)
  {
    var slots: nat := if slotsSetting < 1 then 1 else slotsSetting;
    var freeAt: seq<Option<Seconds>> := [];
    var bars: seq<Bar> := [];
    for k := 0 to |jobs|
      invariant Chart(freeAt, bars) == Occupied(jobs, k)
    {
      if jobs[k].state != JobState.Running {
        continue;
      }
      bars := bars + [Bar(jobs[k].id, |freeAt|, Some(0.0), jobs[k].estimate)];
      freeAt := freeAt + [jobs[k].estimate];
    }
    while |freeAt| < slots
      invariant Padded(freeAt, slots) == Padded(Occupied(jobs, |jobs|).freeAt, slots)
      decreases slots - |freeAt|
    {
      freeAt := freeAt + [Some(0.0)];
    }
    for k := 0 to |jobs|
      invariant Chart(freeAt, bars) == LaidOut(slots, jobs, k)
    {
      if jobs[k].state != JobState.Queued && jobs[k].state != Preparing {
        continue;
      }
      var best: Option<nat> := None;
      for i := 0 to |freeAt|
        invariant best == Soonest(freeAt, i)
      {
        if freeAt[i].Some? && (best.None? || freeAt[i].value < freeAt[best.value].value) {
          best := Some(i);
        }
      }
      var slot: nat, start: Option<Seconds> := 0, None;
      if best.Some? {
        slot, start := best.value, freeAt[best.value];
      }
      if start.Some? && start.value <= 0.0 && jobs[k].blocked {
        start := None;
      }
      var finish: Option<Seconds> := None;
      if start.Some? && jobs[k].estimate.Some? {
        finish := Some(start.value + jobs[k].estimate.value);
      }
      bars := bars + [Bar(jobs[k].id, slot, start, finish)];
      freeAt := freeAt[slot := finish];
    }
    chart := Chart(freeAt, bars);
  }

  // ---- what every chart keeps --------------------------------------------

  lemma {:induction false} SoonestIsSoonest(freeAt: seq<Option<Seconds>>, k: nat)
    requires k <= |freeAt|
    ensures var best := Soonest(freeAt, k);
      && (best.None? ==> forall i :: 0 <= i < k ==> freeAt[i].None?)
      && (best.Some? ==> forall i :: 0 <= i < k && freeAt[i].Some? ==> freeAt[best.value].value <= freeAt[i].value)
  {
    if k > 0 {
      SoonestIsSoonest(freeAt, k - 1);
    }
  }

  /** `b` is over by the time `t`, as far as `t` is known. */
  predicate OverBy(b: Bar, t: Option<Seconds>) {
    t.Some? ==> b.finish.Some? && b.finish.value <= t.value
  }

  /** A known start is no later than a known time. */
  predicate NoLater(start: Option<Seconds>, t: Option<Seconds>) {
    start.Some? && t.Some? ==> start.value <= t.value
  }

  ghost predicate Neat(chart: Chart) {
    Slotted(chart) && Orderly(chart)
  }

  /** A slot's free time is when its last bar is over, and bars there follow one another. */
  ghost predicate Slotted(chart: Chart) {
    && (forall i :: 0 <= i < |chart.bars| ==> chart.bars[i].slot < |chart.freeAt|)
    && (forall i :: 0 <= i < |chart.bars| ==> OverBy(chart.bars[i], chart.freeAt[chart.bars[i].slot]))
    && Separate(chart.bars)
  }

  /** No slot frees before a start already given, and starts are in order. */
  ghost predicate Orderly(chart: Chart) {
    (forall i :: 0 <= i < |chart.bars| ==> NoneFreesBefore(chart.bars[i].start, chart.freeAt)) && InOrder(chart.bars)
  }

  ghost predicate NoneFreesBefore(start: Option<Seconds>, freeAt: seq<Option<Seconds>>) {
    forall s :: 0 <= s < |freeAt| ==> NoLater(start, freeAt[s])
  }

  /** On one slot a bar starts only once every earlier bar there is over. */
  ghost predicate Separate(bars: seq<Bar>) {
    forall i, j :: 0 <= i < j < |bars| && bars[i].slot == bars[j].slot ==> OverBy(bars[i], bars[j].start)
  }

  /** Known start times never go down in dispatch order. */
  ghost predicate InOrder(bars: seq<Bar>) {
    forall i, j :: 0 <= i < j < |bars| ==> NoLater(bars[i].start, bars[j].start)
  }

  lemma {:induction false} LayOneStaysSlotted(chart: Chart, job: Job)
    requires Slotted(chart) && chart.freeAt != []
    ensures Slotted(LayOne(chart, job))
  {
    var n, bars := |chart.bars|, LayOne(chart, job).bars;
    forall i | 0 <= i < n && chart.bars[i].slot == bars[n].slot
      ensures OverBy(chart.bars[i], bars[n].start) && OverBy(chart.bars[i], bars[n].finish)
    {
      assert OverBy(chart.bars[i], chart.freeAt[chart.bars[i].slot]);
    }
  }

  lemma {:induction false} LayOneStaysOrderly(chart: Chart, job: Job)
    requires Orderly(chart) && chart.freeAt != []
    ensures Orderly(LayOne(chart, job))
  {
    SoonestIsSoonest(chart.freeAt, |chart.freeAt|);
    var after, n := LayOne(chart, job), |chart.bars|;
    var bar := after.bars[n];
    forall i | 0 <= i < n
      ensures NoLater(chart.bars[i].start, bar.start) && NoneFreesBefore(chart.bars[i].start, after.freeAt)
    {
      assert NoneFreesBefore(chart.bars[i].start, chart.freeAt);
      assert NoLater(chart.bars[i].start, chart.freeAt[bar.slot]);
    }
    assert NoneFreesBefore(bar.start, after.freeAt);
  }

  lemma {:induction false} OccupiedFacts(jobs: seq<Job>, k: nat, i: nat)
    requires k <= |jobs| && i < |Occupied(jobs, k).bars|
    ensures Occupied(jobs, k).bars[i].slot == i && Occupied(jobs, k).bars[i].start == Some(0.0)
    ensures Occupied(jobs, k).bars[i].finish == Occupied(jobs, k).freeAt[i]
  {
    if i < |Occupied(jobs, k - 1).bars| {
      OccupiedFacts(jobs, k - 1, i);
    }
  }

  lemma {:induction false} PaddedFacts(freeAt: seq<Option<Seconds>>, slots: nat)
    ensures freeAt <= Padded(freeAt, slots)
    ensures forall s :: |freeAt| <= s < |Padded(freeAt, slots)| ==> Padded(freeAt, slots)[s] == Some(0.0)
    ensures |Padded(freeAt, slots)| == if |freeAt| < slots then slots else |freeAt|
    decreases slots - |freeAt|
  {
    if |freeAt| < slots {
      PaddedFacts(freeAt + [Some(0.0)], slots);
    }
  }

  lemma {:induction false} OpeningIsNeat(slots: nat, jobs: seq<Job>)
    ensures Neat(Opening(slots, jobs))
  {
    var occupied, opening := Occupied(jobs, |jobs|), Opening(slots, jobs);
    PaddedFacts(occupied.freeAt, slots);
    forall i | 0 <= i < |opening.bars|
      ensures opening.bars[i].slot == i && opening.bars[i].start == Some(0.0)
      ensures opening.bars[i].finish == opening.freeAt[i]
    {
      OccupiedFacts(jobs, |jobs|, i);
    }
  }

  lemma {:induction false} EveryChartIsNeat(slots: nat, jobs: seq<Job>, k: nat)
    requires 1 <= slots && k <= |jobs|
    ensures Neat(LaidOut(slots, jobs, k))
  {
    if k > 0 {
      EveryChartIsNeat(slots, jobs, k - 1);
      if Waits(jobs[k - 1]) {
        LayOneStaysSlotted(LaidOut(slots, jobs, k - 1), jobs[k - 1]);
        LayOneStaysOrderly(LaidOut(slots, jobs, k - 1), jobs[k - 1]);
      }
    } else {
      OpeningIsNeat(slots, jobs);
    }
  }

  // ---- what a chart shows ------------------------------------------------

  /** Of the slots whose free time is known, the first of those that free soonest. */
  ghost predicate FreesSoonest(freeAt: seq<Option<Seconds>>, s: nat)
    requires s < |freeAt|
  {
    && freeAt[s].Some?
    && (forall i :: 0 <= i < |freeAt| && freeAt[i].Some? ==> freeAt[s].value <= freeAt[i].value)
    && forall i :: 0 <= i < s && freeAt[i].Some? ==> freeAt[s].value < freeAt[i].value
  }

  lemma {:induction false} SoonestIsFirst(freeAt: seq<Option<Seconds>>, k: nat)
    requires k <= |freeAt|
    ensures var best := Soonest(freeAt, k);
      best.Some? ==> forall i :: 0 <= i < best.value && freeAt[i].Some? ==> freeAt[best.value].value < freeAt[i].value
  {
    if k > 0 {
      SoonestIsFirst(freeAt, k - 1);
      SoonestIsSoonest(freeAt, k - 1);
    }
  }

  /** A waiting job is laid on the slot that frees soonest: it starts then, unless that is now and it has been
      refused, and frees the slot again once it is done. Whatever is not known makes what follows from it unknown. */
  ghost predicate Laid(before: Chart, job: Job, after: Chart)
    requires before.freeAt != []
  {
    exists s, start, finish ::
      && 0 <= s < |before.freeAt|
      && after == Chart(before.freeAt[s := finish], before.bars + [Bar(job.id, s, start, finish)])
      && LaidAt(before, job, s, start, finish)
  }

  ghost predicate LaidAt(
      before: Chart, job: Job, s: nat, start: Option<Seconds>, finish: Option<Seconds>)
    requires s < |before.freeAt|
  {
    if forall i :: 0 <= i < |before.freeAt| ==> before.freeAt[i].None? then s == 0 && start == None && finish == None
    else
      && FreesSoonest(before.freeAt, s)
      && start == (if job.blocked && before.freeAt[s] == Some(0.0) then None else before.freeAt[s])
      && (finish.Some? <==> start.Some? && job.estimate.Some?)
      && (finish.Some? ==> finish.value == start.value + job.estimate.value)
  }

  /** The running jobs, in order. */
  function Runners(jobs: seq<Job>): seq<Job> {
    if jobs == [] then []
    else
      Runners(jobs[..|jobs| - 1])
      + if jobs[|jobs| - 1].state == JobState.Running then [jobs[|jobs| - 1]] else []
  }

  lemma {:induction false} RunnersOccupy(jobs: seq<Job>, k: nat)
    requires k <= |jobs|
    ensures var chart, runners := Occupied(jobs, k), Runners(jobs[..k]);
      && |chart.bars| == |chart.freeAt| == |runners|
      && forall i :: 0 <= i < |runners| ==>
           && chart.freeAt[i] == runners[i].estimate
           && chart.bars[i] == Bar(runners[i].id, i, Some(0.0), runners[i].estimate)
  {
    if k > 0 {
      RunnersOccupy(jobs, k - 1);
      assert jobs[..k][..k - 1] == jobs[..k - 1];
    }
  }

  /** A chart opens with every running job on a slot of its own, for what it has left, and every other slot free. */
  lemma {:induction false} OpensWithTheRunning(slots: nat, jobs: seq<Job>)
    ensures var chart, runners := Opening(slots, jobs), Runners(jobs);
      && |chart.bars| == |runners| && |chart.freeAt| == (if |runners| < slots then slots else |runners|)
      && (forall i :: 0 <= i < |runners| ==>
            && chart.freeAt[i] == runners[i].estimate
            && chart.bars[i] == Bar(runners[i].id, i, Some(0.0), runners[i].estimate))
      && forall i :: |runners| <= i < |chart.freeAt| ==> chart.freeAt[i] == Some(0.0)
  {
    RunnersOccupy(jobs, |jobs|);
    assert jobs[..|jobs|] == jobs;
    PaddedFacts(Occupied(jobs, |jobs|).freeAt, slots);
  }

  /** And every waiting job, in its turn, is laid on the slot that frees soonest. */
  lemma {:induction false} EachIsLaidOnTheSoonest(slots: nat, jobs: seq<Job>, k: nat)
    requires 1 <= slots && k < |jobs|
    ensures var before, after := LaidOut(slots, jobs, k), LaidOut(slots, jobs, k + 1);
      if jobs[k].state in {JobState.Queued, Preparing} then Laid(before, jobs[k], after) else after == before
  {
    var before, job := LaidOut(slots, jobs, k), jobs[k];
    if job.state in {JobState.Queued, Preparing} {
      SoonestIsSoonest(before.freeAt, |before.freeAt|);
      SoonestIsFirst(before.freeAt, |before.freeAt|);
      var after := LayOne(before, job);
      var bar := after.bars[|before.bars|];
      assert LaidAt(before, job, bar.slot, bar.start, bar.finish);
    }
  }

  // ---- a feasible schedule -----------------------------------------------

  function RunningCount(jobs: seq<Job>, k: nat): nat
    requires k <= |jobs|
  {
    if k == 0 then 0 else RunningCount(jobs, k - 1) + if jobs[k - 1].state == JobState.Running then 1 else 0
  }

  /** The slots a forecast lays jobs on: those configured, or as many as run already. */
  function Width(slots: nat, jobs: seq<Job>): nat {
    if RunningCount(jobs, |jobs|) < slots then slots else RunningCount(jobs, |jobs|)
  }

  lemma {:induction false} OccupiedWidth(jobs: seq<Job>, k: nat)
    requires k <= |jobs|
    ensures |Occupied(jobs, k).freeAt| == RunningCount(jobs, k)
  {
    if k > 0 {
      OccupiedWidth(jobs, k - 1);
    }
  }

  lemma {:induction false} ChartWidth(slots: nat, jobs: seq<Job>)
    ensures |Opening(slots, jobs).freeAt| == Width(slots, jobs)
  {
    OccupiedWidth(jobs, |jobs|);
    PaddedFacts(Occupied(jobs, |jobs|).freeAt, slots);
  }

  /** A job with no known finish, once started, goes on for good. */
  predicate Covers(b: Bar, t: real) {
    b.start.Some? && b.start.value <= t && (b.finish.None? || t < b.finish.value)
  }

  /** Bars over instant `t` on slots below `s`. */
  function CountBelow(bars: seq<Bar>, s: nat, t: real): nat {
    if bars == [] then 0
    else
      var n := |bars| - 1;
      CountBelow(bars[..n], s, t) + if bars[n].slot < s && Covers(bars[n], t) then 1 else 0
  }

  function CountOn(bars: seq<Bar>, s: nat, t: real): nat {
    if bars == [] then 0
    else
      var n := |bars| - 1;
      CountOn(bars[..n], s, t) + if bars[n].slot == s && Covers(bars[n], t) then 1 else 0
  }

  function Concurrent(bars: seq<Bar>, t: real): nat {
    if bars == [] then 0
    else
      var n := |bars| - 1;
      Concurrent(bars[..n], t) + if Covers(bars[n], t) then 1 else 0
  }

  lemma {:induction false} SeparatePrefix(bars: seq<Bar>, n: nat)
    requires Separate(bars) && n <= |bars|
    ensures Separate(bars[..n])
  {
  }

  lemma {:induction false} NobodyCovers(bars: seq<Bar>, s: nat, t: real)
    requires forall i :: 0 <= i < |bars| ==> !(bars[i].slot == s && Covers(bars[i], t))
    ensures CountOn(bars, s, t) == 0
  {
    if bars != [] {
      NobodyCovers(bars[..|bars| - 1], s, t);
    }
  }

  lemma {:induction false} OneAtATime(bars: seq<Bar>, s: nat, t: real)
    requires Separate(bars)
    ensures CountOn(bars, s, t) <= 1
  {
    if bars != [] {
      var n := |bars| - 1;
      if bars[n].slot == s && Covers(bars[n], t) {
        forall i | 0 <= i < n ensures !(bars[i].slot == s && Covers(bars[i], t)) {
          assert bars[i].slot == bars[n].slot ==> OverBy(bars[i], bars[n].start);
        }
        NobodyCovers(bars[..n], s, t);
      } else {
        SeparatePrefix(bars, n);
        OneAtATime(bars[..n], s, t);
      }
    }
  }

  lemma {:induction false} OneMoreSlot(bars: seq<Bar>, s: nat, t: real)
    ensures CountBelow(bars, s + 1, t) == CountBelow(bars, s, t) + CountOn(bars, s, t)
  {
    if bars != [] {
      OneMoreSlot(bars[..|bars| - 1], s, t);
    }
  }

  lemma {:induction false} NothingBelowZero(bars: seq<Bar>, t: real)
    ensures CountBelow(bars, 0, t) == 0
  {
    if bars != [] {
      NothingBelowZero(bars[..|bars| - 1], t);
    }
  }

  lemma {:induction false} AtMostOnePerSlot(bars: seq<Bar>, s: nat, t: real)
    requires Separate(bars)
    ensures CountBelow(bars, s, t) <= s
  {
    if s == 0 {
      NothingBelowZero(bars, t);
    } else {
      AtMostOnePerSlot(bars, s - 1, t);
      OneMoreSlot(bars, s - 1, t);
      OneAtATime(bars, s - 1, t);
    }
  }

  lemma {:induction false} AllAreBelow(bars: seq<Bar>, s: nat, t: real)
    requires forall i :: 0 <= i < |bars| ==> bars[i].slot < s
    ensures CountBelow(bars, s, t) == Concurrent(bars, t)
  {
    if bars != [] {
      AllAreBelow(bars[..|bars| - 1], s, t);
    }
  }

  /** The forecast is a schedule that could run: projected intervals on one slot never overlap, known
      starts never go down in dispatch order, and at no instant do more jobs overlap than there are
      slots, or jobs running already. */
  lemma {:induction false} ForecastIsFeasible(slots: nat, jobs: seq<Job>, t: real)
    requires 1 <= slots
    ensures var bars := LaidOut(slots, jobs, |jobs|).bars;
      Separate(bars) && InOrder(bars) && Concurrent(bars, t) <= Width(slots, jobs)
  {
    var chart := LaidOut(slots, jobs, |jobs|);
    EveryChartIsNeat(slots, jobs, |jobs|);
    ChartWidth(slots, jobs);
    AtMostOnePerSlot(chart.bars, |chart.freeAt|, t);
    AllAreBelow(chart.bars, |chart.freeAt|, t);
  }

  // ---- a real bound ------------------------------------------------------

  function Total(freeAt: seq<Option<Seconds>>): real {
    if freeAt == [] then 0.0
    else Total(freeAt[..|freeAt| - 1]) + freeAt[|freeAt| - 1].GetOr<Seconds>(0.0)
  }

  lemma {:induction false} TotalAppend(freeAt: seq<Option<Seconds>>, x: Option<Seconds>)
    ensures Total(freeAt + [x]) == Total(freeAt) + x.GetOr<Seconds>(0.0)
  {
    assert (freeAt + [x])[..|freeAt|] == freeAt;
  }

  lemma {:induction false} TotalUpdate(freeAt: seq<Option<Seconds>>, s: nat, x: Option<Seconds>)
    requires s < |freeAt|
    ensures Total(freeAt[s := x]) == Total(freeAt) - freeAt[s].GetOr<Seconds>(0.0) + x.GetOr<Seconds>(0.0)
  {
    var n := |freeAt| - 1;
    if s == n {
      assert freeAt[s := x][..n] == freeAt[..n];
    } else {
      assert freeAt[s := x][..n] == freeAt[..n][s := x];
      TotalUpdate(freeAt[..n], s, x);
    }
  }

  predicate AllKnown(freeAt: seq<Option<Seconds>>) {
    forall s :: 0 <= s < |freeAt| ==> freeAt[s].Some?
  }

  lemma {:induction false} LeastTimesCount(freeAt: seq<Option<Seconds>>, least: real)
    requires AllKnown(freeAt) && forall s :: 0 <= s < |freeAt| ==> least <= freeAt[s].value
    ensures least * |freeAt| as real <= Total(freeAt)
  {
    if freeAt != [] {
      var n := |freeAt| - 1;
      LeastTimesCount(freeAt[..n], least);
      assert least * (n + 1) as real == least * n as real + least;
    }
  }

  lemma {:induction false} LeastTimesWidth(freeAt: seq<Option<Seconds>>, least: real, width: nat, work: real)
    requires AllKnown(freeAt) && forall s :: 0 <= s < |freeAt| ==> least <= freeAt[s].value
    requires |freeAt| == width && Total(freeAt) == work
    ensures least * width as real <= work
  {
    LeastTimesCount(freeAt, least);
  }

  lemma {:induction false} PaddingAddsNothing(freeAt: seq<Option<Seconds>>, slots: nat)
    ensures Total(Padded(freeAt, slots)) == Total(freeAt)
    decreases slots - |freeAt|
  {
    if |freeAt| < slots {
      TotalAppend(freeAt, Some(0.0));
      PaddingAddsNothing(freeAt + [Some(0.0)], slots);
    }
  }

  /** What the running jobs among the first `k` have left. */
  function RunningLeft(jobs: seq<Job>, k: nat): real
    requires k <= |jobs|
  {
    if k == 0 then 0.0
    else
      RunningLeft(jobs, k - 1)
      + if jobs[k - 1].state == JobState.Running then jobs[k - 1].estimate.GetOr<Seconds>(0.0) else 0.0
  }

  /** What the waiting jobs among the first `k` will take. */
  function WaitingWork(jobs: seq<Job>, k: nat): real
    requires k <= |jobs|
  {
    if k == 0 then 0.0
    else WaitingWork(jobs, k - 1) + if Waits(jobs[k - 1]) then jobs[k - 1].estimate.GetOr<Seconds>(0.0) else 0.0
  }

  predicate Plain(jobs: seq<Job>) {
    forall k :: 0 <= k < |jobs| ==> jobs[k].estimate.Some? && !jobs[k].blocked
  }

  lemma {:induction false} OccupiedTotal(jobs: seq<Job>, k: nat)
    requires k <= |jobs| && Plain(jobs)
    ensures Total(Occupied(jobs, k).freeAt) == RunningLeft(jobs, k) && AllKnown(Occupied(jobs, k).freeAt)
  {
    if k > 0 {
      OccupiedTotal(jobs, k - 1);
      TotalAppend(Occupied(jobs, k - 1).freeAt, jobs[k - 1].estimate);
    }
  }

  /** The slots' free times always add up to the work handed out so far. */
  lemma {:induction false} WorkIsConserved(slots: nat, jobs: seq<Job>, k: nat)
    requires 1 <= slots && k <= |jobs| && Plain(jobs)
    ensures var chart := LaidOut(slots, jobs, k);
      AllKnown(chart.freeAt) && Total(chart.freeAt) == RunningLeft(jobs, |jobs|) + WaitingWork(jobs, k)
  {
    if k == 0 {
      OccupiedTotal(jobs, |jobs|);
      PaddingAddsNothing(Occupied(jobs, |jobs|).freeAt, slots);
      PaddedFacts(Occupied(jobs, |jobs|).freeAt, slots);
    } else {
      WorkIsConserved(slots, jobs, k - 1);
      if Waits(jobs[k - 1]) {
        var before := LaidOut(slots, jobs, k - 1);
        SoonestIsSoonest(before.freeAt, |before.freeAt|);
        var slot := Soonest(before.freeAt, |before.freeAt|).value;
        TotalUpdate(before.freeAt, slot, FinishAfter(before.freeAt[slot], jobs[k - 1].estimate));
      }
    }
  }

  /** The start a forecast gives the waiting job numbered `k`. */
  function StartOf(slots: nat, jobs: seq<Job>, k: nat): Option<Seconds>
    requires 1 <= slots && k < |jobs| && Waits(jobs[k])
  {
    var bars := LaidOut(slots, jobs, k + 1).bars;
    bars[|bars| - 1].start
  }

  /** A waiting job starts when the first slot frees. */
  lemma {:induction false} StartIsLeast(slots: nat, jobs: seq<Job>, k: nat)
    requires 1 <= slots && k < |jobs| && Waits(jobs[k]) && Plain(jobs) && AllKnown(LaidOut(slots, jobs, k).freeAt)
    ensures StartOf(slots, jobs, k).Some?
    ensures var freeAt := LaidOut(slots, jobs, k).freeAt;
      forall s :: 0 <= s < |freeAt| ==> StartOf(slots, jobs, k).value <= freeAt[s].value
  {
    var before := LaidOut(slots, jobs, k);
    SoonestIsSoonest(before.freeAt, |before.freeAt|);
    assert LaidOut(slots, jobs, k + 1) == LayOne(before, jobs[k]);
  }

  /** The slots as a waiting job finds them. */
  lemma {:induction false} SlotsBefore(slots: nat, jobs: seq<Job>, k: nat) returns (freeAt: seq<Option<Seconds>>)
    requires 1 <= slots && k < |jobs| && Waits(jobs[k]) && Plain(jobs)
    ensures AllKnown(freeAt) && |freeAt| == Width(slots, jobs)
    ensures Total(freeAt) == RunningLeft(jobs, |jobs|) + WaitingWork(jobs, k)
    ensures StartOf(slots, jobs, k).Some?
    ensures forall s :: 0 <= s < |freeAt| ==> StartOf(slots, jobs, k).value <= freeAt[s].value
  {
    freeAt := LaidOut(slots, jobs, k).freeAt;
    WorkIsConserved(slots, jobs, k);
    StartIsLeast(slots, jobs, k);
    ChartWidth(slots, jobs);
  }

  /** With every duration known and nothing blocked, every waiting job is given a start, and that start
      times the number of slots is at most the work ahead of it: what the running jobs have left and what
      every earlier waiting job takes. */
  lemma {:induction false} StartIsBounded(slots: nat, jobs: seq<Job>, k: nat)
    requires 1 <= slots && k < |jobs| && Waits(jobs[k]) && Plain(jobs)
    ensures StartOf(slots, jobs, k).Some?
    ensures StartOf(slots, jobs, k).value * Width(slots, jobs) as real
         <= RunningLeft(jobs, |jobs|) + WaitingWork(jobs, k)
  {
    var freeAt := SlotsBefore(slots, jobs, k);
    LeastTimesWidth(freeAt, StartOf(slots, jobs, k).value, Width(slots, jobs),
                    RunningLeft(jobs, |jobs|) + WaitingWork(jobs, k));
  }
}
