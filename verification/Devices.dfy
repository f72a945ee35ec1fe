/** GPU placement: which devices one job gets, and what keeps jobs that share a device safe. */
module Devices {
  import opened Wrappers
  import opened Resources
  import opened QueueRows

  /** A job this dispatcher launched itself, with the devices it was given. */
  datatype RunningJob = RunningJob(id: JobId, devices: seq<int>)

  function JobIds(jobs: seq<RunningJob>): set<JobId> {
    if jobs == [] then {} else {jobs[0].id} + JobIds(jobs[1..])
  }

  function DropRunning(jobs: seq<RunningJob>, gone: set<JobId>): seq<RunningJob> {
    if jobs == [] then []
    else
      var n := |jobs| - 1;
      DropRunning(jobs[..n], gone) + if jobs[n].id in gone then [] else [jobs[n]]
  }

  // ---- occupancy ---------------------------------------------------------

  /** Who is on one device: how many jobs, their declared VRAM, and whether any refused to share. */
  datatype Occupancy = Occupancy(jobs: nat, vram: Mib, exclusive: bool)

  function Vacant(): Occupancy {
    Occupancy(0, 0.0, false)
  }

  /** What the running listing says about a job. A job missing from it counts as exclusive. */
  function ModeOf(rows: seq<Row>, id: JobId): GpuMode {
    var row := Find(rows, id);
    if row.Some? && row.value.state == Running then row.value.mode else Exclusive
  }

  function VramOf(rows: seq<Row>, id: JobId): Mib {
    var row := Find(rows, id);
    if row.Some? && row.value.state == Running then DeclaredVram(row.value) else 0.0
  }

  function Joined(occ: Occupancy, mode: GpuMode, vram: Mib): Occupancy {
    Occupancy(occ.jobs + 1, occ.vram + vram, occ.exclusive || mode == Exclusive)
  }

  /** Occupancy of one device, the later jobs of the list added last. */
  function OccupancyOf(rows: seq<Row>, jobs: seq<RunningJob>, device: int): Occupancy {
    if jobs == [] then Vacant()
    else
      var last := jobs[|jobs| - 1];
      var before := OccupancyOf(rows, jobs[..|jobs| - 1], device);
      if device in last.devices then Joined(before, ModeOf(rows, last.id), VramOf(rows, last.id)) else before
  }

  function InUse(jobs: seq<RunningJob>): set<int> {
    if jobs == [] then {}
    else InUse(jobs[..|jobs| - 1]) + AsSet(jobs[|jobs| - 1].devices)
  }

  function AsSet(xs: seq<int>): set<int> {
    set x | x in xs
  }

  // ---- allocation --------------------------------------------------------

  const TOLERANCE := 0.000000001

  datatype Candidate = Candidate(score: real, index: int)

  /** What an allocation is judged against, frozen for a tick. */
  datatype GpuPolicy = GpuPolicy(threshold: real, reserveVram: real)

  predicate WantsShare(mode: GpuMode, vram: Mib) {
    mode == Shared && vram > 0.0
  }

  function ShareBudget(device: GpuDevice, policy: GpuPolicy): Mib {
    Max(0.0, device.total.GetOr<Mib>(0.0) - policy.reserveVram)
  }

  predicate FreeEnough(device: GpuDevice, policy: GpuPolicy) {
    var free := device.FreePercent();
    free.None? || free.value + TOLERANCE >= policy.threshold
  }

  /** How one device rates for a job, or None when it is off limits. */
  function Rate(device: GpuDevice, occ: Occupancy, mode: GpuMode, vram: Mib, policy: GpuPolicy): Option<real> {
    if occ.jobs > 0 then
      if WantsShare(mode, vram) && !occ.exclusive && occ.vram + vram <= ShareBudget(device, policy)
      then Some(-2.0) else None
    else if !FreeEnough(device, policy) then None
    else if device.FreePercent().None? then Some(-1.0)
    else Some(device.FreePercent().value)
  }

  function Candidates(
      rows: seq<Row>, jobs: seq<RunningJob>, devices: seq<GpuDevice>, mode: GpuMode, vram: Mib, policy: GpuPolicy)
    : (cs: seq<Candidate>)
    ensures |cs| <= |devices|
  {
    if devices == [] then []
    else
      var n := |devices| - 1;
      var before := Candidates(rows, jobs, devices[..n], mode, vram, policy);
      var rate := Rate(devices[n], OccupancyOf(rows, jobs, devices[n].index), mode, vram, policy);
      if rate.Some? then before + [Candidate(rate.value, devices[n].index)] else before
  }

  /** Stable insertion: equal scores keep the order the devices were listed in. */
  function Ranked(c: Candidate, sorted: seq<Candidate>): (r: seq<Candidate>)
    ensures |r| == |sorted| + 1
  {
    if sorted == [] || sorted[0].score < c.score then [c] + sorted
    else [sorted[0]] + Ranked(c, sorted[1..])
  }

  /** Highest score first. */
  function FreestFirst(cs: seq<Candidate>): (r: seq<Candidate>)
    ensures |r| == |cs|
  {
    if cs == [] then []
    else Ranked(cs[|cs| - 1], FreestFirst(cs[..|cs| - 1]))
  }

  function Indices(cs: seq<Candidate>): (r: seq<int>)
    ensures |r| == |cs|
    ensures forall k :: 0 <= k < |r| ==> r[k] == cs[k].index
  {
    seq(|cs|, k requires 0 <= k < |cs| => cs[k].index)
  }

  /** The best rated devices, as many as asked for; None when fewer are rated. A job that asks for none, or
      meets a machine whose GPUs cannot be used, gets the empty list. */
  function Allocate(
      rows: seq<Row>, jobs: seq<RunningJob>, gpu: Option<GpuInfo>,
      count: nat, mode: GpuMode, vram: Mib, policy: GpuPolicy)
    : Option<seq<int>>
  {
    if count == 0 || gpu.None? || !gpu.value.available then Some([])
    else
      var cs := Candidates(rows, jobs, gpu.value.devices, mode, vram, policy);
      if |cs| < count then None else Some(Indices(FreestFirst(cs)[..count]))
  }

  // ---- what an allocation returns ----------------------------------------

  predicate DistinctIndices(devices: seq<GpuDevice>) {
    forall i, j :: 0 <= i < j < |devices| ==> devices[i].index != devices[j].index
  }

  predicate NoRepeats(xs: seq<int>) {
    forall i, j :: 0 <= i < j < |xs| ==> xs[i] != xs[j]
  }

  predicate Descending(cs: seq<Candidate>) {
    forall i, j :: 0 <= i < j < |cs| ==> cs[i].score >= cs[j].score
  }

  predicate DistinctCandidates(cs: seq<Candidate>) {
    forall i, j :: 0 <= i < j < |cs| ==> cs[i].index != cs[j].index
  }

  lemma {:induction false} RankedFacts(c: Candidate, sorted: seq<Candidate>)
    ensures forall x :: x in Ranked(c, sorted) <==> x == c || x in sorted
    ensures Descending(sorted) ==> Descending(Ranked(c, sorted))
    ensures DistinctCandidates(sorted) && (forall x :: x in sorted ==> x.index != c.index)
        ==> DistinctCandidates(Ranked(c, sorted))
  {
    if sorted != [] && sorted[0].score >= c.score {
      var rest := Ranked(c, sorted[1..]);
      RankedFacts(c, sorted[1..]);
      forall k | 0 <= k < |rest|
        ensures rest[k] == c || rest[k] in sorted[1..]
      {
        assert rest[k] in rest;
      }
    }
  }

  /** The ranking is a reordering: same members, best first, and distinct if the input was. */
  lemma {:induction false} FreestFirstSorts(cs: seq<Candidate>)
    ensures forall x :: x in FreestFirst(cs) <==> x in cs
    ensures Descending(FreestFirst(cs))
    ensures DistinctCandidates(cs) ==> DistinctCandidates(FreestFirst(cs))
  {
    if cs != [] {
      var n := |cs| - 1;
      FreestFirstSorts(cs[..n]);
      RankedFacts(cs[n], FreestFirst(cs[..n]));
      assert cs == cs[..n] + [cs[n]];
      if DistinctCandidates(cs) {
        forall x | x in cs[..n] ensures x.index != cs[n].index {
          var k :| 0 <= k < n && cs[k] == x;
        }
      }
    }
  }

  /** The candidates of one score, in the order they stand. */
  function OfScore(cs: seq<Candidate>, score: real): seq<Candidate> {
    if cs == [] then []
    else (if cs[0].score == score then [cs[0]] else []) + OfScore(cs[1..], score)
  }

  lemma {:induction false} OfScoreAppend(a: seq<Candidate>, c: Candidate, score: real)
    ensures OfScore(a + [c], score) == OfScore(a, score) + if c.score == score then [c] else []
  {
    if a == [] {
      assert a + [c] == [c] && [c][1..] == [];
    } else {
      var rest, last := OfScore(a[1..], score), if c.score == score then [c] else [];
      assert (a + [c])[0] == a[0] && (a + [c])[1..] == a[1..] + [c];
      OfScoreAppend(a[1..], c, score);
      assert [a[0]] + (rest + last) == ([a[0]] + rest) + last;
    }
  }

  lemma {:induction false} RankedBehindItsEquals(c: Candidate, sorted: seq<Candidate>, score: real)
    requires Descending(sorted)
    ensures OfScore(Ranked(c, sorted), score) == OfScore(sorted, score) + if c.score == score then [c] else []
  {
    if sorted == [] {
      assert [c][1..] == [];
    } else if sorted[0].score < c.score {
      assert ([c] + sorted)[1..] == sorted;
      NoneOfScore(sorted, c.score);
    } else {
      assert Ranked(c, sorted)[1..] == Ranked(c, sorted[1..]);
      RankedBehindItsEquals(c, sorted[1..], score);
    }
  }

  lemma {:induction false} NoneOfScore(cs: seq<Candidate>, score: real)
    requires forall i :: 0 <= i < |cs| ==> cs[i].score != score
    ensures OfScore(cs, score) == []
  {
    if cs != [] {
      NoneOfScore(cs[1..], score);
    }
  }

  /** Equally good devices are handed out in the order they are listed. */
  lemma {:induction false} EqualsKeepListingOrder(cs: seq<Candidate>, score: real)
    ensures OfScore(FreestFirst(cs), score) == OfScore(cs, score)
  {
    if cs != [] {
      var n := |cs| - 1;
      EqualsKeepListingOrder(cs[..n], score);
      FreestFirstSorts(cs[..n]);
      RankedBehindItsEquals(cs[n], FreestFirst(cs[..n]), score);
      assert cs == cs[..n] + [cs[n]];
      OfScoreAppend(cs[..n], cs[n], score);
    }
  }

  /** Some listed device carries this index and rates for the job. */
  ghost predicate MayUse(
      rows: seq<Row>, jobs: seq<RunningJob>, devices: seq<GpuDevice>, index: int,
      mode: GpuMode, vram: Mib, policy: GpuPolicy)
  {
    exists d :: d in devices && d.index == index
      && Rate(d, OccupancyOf(rows, jobs, index), mode, vram, policy).Some?
  }

  lemma {:induction false} CandidatesRate(
      rows: seq<Row>, jobs: seq<RunningJob>, devices: seq<GpuDevice>, mode: GpuMode, vram: Mib, policy: GpuPolicy)
    requires DistinctIndices(devices)
    ensures var cs := Candidates(rows, jobs, devices, mode, vram, policy);
      && (forall c :: c in cs ==> MayUse(rows, jobs, devices, c.index, mode, vram, policy))
      && DistinctCandidates(cs)
      && (forall c :: c in cs ==> exists d :: d in devices && d.index == c.index)
  {
    if devices != [] {
      var n := |devices| - 1;
      var d := devices[n];
      CandidatesRate(rows, jobs, devices[..n], mode, vram, policy);
      var before := Candidates(rows, jobs, devices[..n], mode, vram, policy);
      forall c | c in before
        ensures c.index != d.index && MayUse(rows, jobs, devices, c.index, mode, vram, policy)
      {
        var e :| e in devices[..n] && e.index == c.index
          && Rate(e, OccupancyOf(rows, jobs, c.index), mode, vram, policy).Some?;
        var k :| 0 <= k < n && devices[..n][k] == e;
        assert devices[k].index != devices[n].index;
        assert e in devices;
      }
      forall c | c in Candidates(rows, jobs, devices, mode, vram, policy)
        ensures MayUse(rows, jobs, devices, c.index, mode, vram, policy)
      {
        if c !in before {
          assert d in devices && d.index == c.index;
        }
      }
    }
  }

  /** An allocation hands out exactly the number asked for, all different, and each one a device of
      this machine that rates for the job. */
  lemma {:induction false} AllocationIsSound(
      rows: seq<Row>, jobs: seq<RunningJob>, gpu: GpuInfo, count: nat, mode: GpuMode, vram: Mib, policy: GpuPolicy)
    requires DistinctIndices(gpu.devices) && gpu.available && count > 0
    requires Allocate(rows, jobs, Some(gpu), count, mode, vram, policy).Some?
    ensures var got := Allocate(rows, jobs, Some(gpu), count, mode, vram, policy).value;
      && |got| == count && NoRepeats(got)
      && forall x :: x in got ==> MayUse(rows, jobs, gpu.devices, x, mode, vram, policy)
  {
    var cs := Candidates(rows, jobs, gpu.devices, mode, vram, policy);
    CandidatesRate(rows, jobs, gpu.devices, mode, vram, policy);
    FreestFirstSorts(cs);
    var sorted := FreestFirst(cs);
    var got := Indices(sorted[..count]);
    forall x | x in got ensures MayUse(rows, jobs, gpu.devices, x, mode, vram, policy) {
      var k :| 0 <= k < count && got[k] == x;
      assert sorted[k] in sorted;
    }
  }
}
