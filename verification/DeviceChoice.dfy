/** GPU placement in the device listing itself: which devices a job may have, and which of them it gets. */
module DeviceChoice {
  import opened Wrappers
  import opened Resources
  import opened QueueRows
  import opened Devices

  // ---- who is on a device ------------------------------------------------

  /** Some running job was given the device. */
  ghost predicate Occupied(jobs: seq<RunningJob>, index: int) {
    exists k :: 0 <= k < |jobs| && index in jobs[k].devices
  }

  /** What a running job declared to share by: its row says shared. */
  predicate Shares(rows: seq<Row>, job: RunningJob) {
    var row := Find(rows, job.id);
    row.Some? && row.value.state == Running && row.value.mode == Shared
  }

  function Declared(rows: seq<Row>, job: RunningJob): Mib {
    var row := Find(rows, job.id);
    if row.Some? && row.value.state == Running && row.value.vram.Some? then row.value.vram.value else 0.0
  }

  /** VRAM declared by the jobs on a device. */
  function DeclaredOn(rows: seq<Row>, jobs: seq<RunningJob>, index: int): Mib {
    if jobs == [] then 0.0
    else (if index in jobs[0].devices then Declared(rows, jobs[0]) else 0.0) + DeclaredOn(rows, jobs[1..], index)
  }

  ghost predicate AllShare(rows: seq<Row>, jobs: seq<RunningJob>, index: int) {
    forall k :: 0 <= k < |jobs| && index in jobs[k].devices ==> Shares(rows, jobs[k])
  }

  lemma {:induction false} DeclaredOnLast(rows: seq<Row>, jobs: seq<RunningJob>, index: int)
    requires jobs != []
    ensures var n := |jobs| - 1;
      DeclaredOn(rows, jobs, index)
      == DeclaredOn(rows, jobs[..n], index) + if index in jobs[n].devices then Declared(rows, jobs[n]) else 0.0
  {
    var n := |jobs| - 1;
    if n > 0 {
      DeclaredOnLast(rows, jobs[1..], index);
      assert jobs[1..][..n - 1] == jobs[..n][1..];
    } else {
      assert jobs[1..] == [] && jobs[..0] == [];
    }
  }

  /** The occupancy of a device is what the running jobs and their rows say. */
  lemma {:induction false} OccupancyIsWhoIsThere(rows: seq<Row>, jobs: seq<RunningJob>, index: int)
    ensures var occ := OccupancyOf(rows, jobs, index);
      && (occ.jobs > 0 <==> Occupied(jobs, index))
      && (!occ.exclusive <==> AllShare(rows, jobs, index))
      && occ.vram == DeclaredOn(rows, jobs, index)
  {
    if jobs != [] {
      var n := |jobs| - 1;
      OccupancyIsWhoIsThere(rows, jobs[..n], index);
      DeclaredOnLast(rows, jobs, index);
      LastJob(rows, jobs, index);
    }
  }

  lemma {:induction false} LastJob(rows: seq<Row>, jobs: seq<RunningJob>, index: int)
    requires jobs != []
    ensures var n := |jobs| - 1;
      && (Occupied(jobs, index) <==> Occupied(jobs[..n], index) || index in jobs[n].devices)
      && (AllShare(rows, jobs, index) <==>
            AllShare(rows, jobs[..n], index) && (index in jobs[n].devices ==> Shares(rows, jobs[n])))
  {
    var n := |jobs| - 1;
    if Occupied(jobs[..n], index) {
      var k :| 0 <= k < n && index in jobs[..n][k].devices;
      assert index in jobs[k].devices;
    }
    if Occupied(jobs, index) {
      var k :| 0 <= k < |jobs| && index in jobs[k].devices;
      assert k < n ==> index in jobs[..n][k].devices;
    }
    if AllShare(rows, jobs, index) {
      forall k | 0 <= k < n && index in jobs[..n][k].devices ensures Shares(rows, jobs[..n][k]) {
        assert jobs[..n][k] == jobs[k];
      }
    }
    if AllShare(rows, jobs[..n], index) && (index in jobs[n].devices ==> Shares(rows, jobs[n])) {
      forall k | 0 <= k < |jobs| && index in jobs[k].devices ensures Shares(rows, jobs[k]) {
        assert k < n ==> jobs[..n][k] == jobs[k];
      }
    }
  }

  // ---- which devices may be had ------------------------------------------

  /** How much of a device is free can be told. */
  predicate Measured(d: GpuDevice) {
    d.total.Some? && d.total.value > 0.0 && (d.free.Some? || d.used.Some?)
  }

  function FreeOf(d: GpuDevice): real
    requires Measured(d)
  {
    if d.free.Some? then d.free.value else d.total.value - d.used.value
  }

  /** The part of a device that is free. */
  function FreePart(d: GpuDevice): real
    requires Measured(d)
  {
    FreeOf(d) / d.total.value
  }

  /** An idle device may be had if it is free enough, or if that cannot be told. */
  predicate FreeForOne(d: GpuDevice, threshold: real) {
    Measured(d) ==> 100.0 * FreeOf(d) >= (threshold - 0.000000001) * d.total.value
  }

  /** An occupied one if everybody there shares, so does the job, with some VRAM declared, and all that is
      declared fits the device less the reserve. */
  ghost predicate RoomToShare(
      rows: seq<Row>, jobs: seq<RunningJob>, d: GpuDevice, mode: GpuMode, vram: Mib, reserve: real)
  {
    && mode == Shared && vram > 0.0 && AllShare(rows, jobs, d.index)
    && DeclaredOn(rows, jobs, d.index) + vram <= (if d.total.Some? then d.total.value else 0.0) - reserve
  }

  ghost predicate Allowed(
      rows: seq<Row>, jobs: seq<RunningJob>, d: GpuDevice, mode: GpuMode, vram: Mib, policy: GpuPolicy)
  {
    if Occupied(jobs, d.index) then RoomToShare(rows, jobs, d, mode, vram, policy.reserveVram)
    else FreeForOne(d, policy.threshold)
  }

  lemma {:induction false} PartsAndPercentages(d: GpuDevice)
    ensures d.FreePercent().Some? <==> Measured(d)
    ensures Measured(d) ==> d.FreePercent().value == 100.0 * FreePart(d)
    ensures Measured(d) ==> FreePart(d) * d.total.value == FreeOf(d)
  {
  }

  lemma {:induction false} AllowedMeansRated(
      rows: seq<Row>, jobs: seq<RunningJob>, d: GpuDevice, mode: GpuMode, vram: Mib, policy: GpuPolicy)
    ensures Rate(d, OccupancyOf(rows, jobs, d.index), mode, vram, policy).Some?
      <==> Allowed(rows, jobs, d, mode, vram, policy)
  {
    OccupancyIsWhoIsThere(rows, jobs, d.index);
    PartsAndPercentages(d);
    if Measured(d) {
      Enough(FreePart(d), d.total.value, policy.threshold - 0.000000001);
    }
  }

  lemma {:induction false} Enough(part: real, total: real, percent: real)
    requires total > 0.0
    ensures 100.0 * part >= percent <==> 100.0 * (part * total) >= percent * total
  {
    assert 100.0 * (part * total) == (100.0 * part) * total;
    assert 100.0 * part >= percent ==> (100.0 * part) * total >= percent * total;
    assert 100.0 * part < percent ==> (100.0 * part) * total < percent * total;
  }

  // ---- which of them are handed out --------------------------------------

  /** How many of these devices may be had. */
  ghost function AllowedCount(
      rows: seq<Row>, jobs: seq<RunningJob>, devices: seq<GpuDevice>, mode: GpuMode, vram: Mib, policy: GpuPolicy): nat
  {
    if devices == [] then 0
    else
      var n := |devices| - 1;
      AllowedCount(rows, jobs, devices[..n], mode, vram, policy)
      + if Allowed(rows, jobs, devices[n], mode, vram, policy) then 1 else 0
  }

  /** The candidate a device makes. */
  ghost predicate CandidateFor(
      rows: seq<Row>, jobs: seq<RunningJob>, d: GpuDevice, mode: GpuMode, vram: Mib, policy: GpuPolicy, c: Candidate)
  {
    c.index == d.index && Rate(d, OccupancyOf(rows, jobs, d.index), mode, vram, policy) == Some(c.score)
  }

  lemma {:induction false} CandidatesAreTheAllowed(
      rows: seq<Row>, jobs: seq<RunningJob>, devices: seq<GpuDevice>, mode: GpuMode, vram: Mib, policy: GpuPolicy)
    ensures var cs := Candidates(rows, jobs, devices, mode, vram, policy);
      && |cs| == AllowedCount(rows, jobs, devices, mode, vram, policy)
      && (forall c :: c in cs ==> exists d :: d in devices && CandidateFor(rows, jobs, d, mode, vram, policy, c))
      && (forall d, c :: d in devices && CandidateFor(rows, jobs, d, mode, vram, policy, c) ==> c in cs)
  {
    if devices != [] {
      var n := |devices| - 1;
      CandidatesAreTheAllowed(rows, jobs, devices[..n], mode, vram, policy);
      AllowedMeansRated(rows, jobs, devices[n], mode, vram, policy);
      assert devices == devices[..n] + [devices[n]];
      var before := Candidates(rows, jobs, devices[..n], mode, vram, policy);
      var cs := Candidates(rows, jobs, devices, mode, vram, policy);
      forall c | c in cs ensures exists d :: d in devices && CandidateFor(rows, jobs, d, mode, vram, policy, c) {
        if c in before {
          var d :| d in devices[..n] && CandidateFor(rows, jobs, d, mode, vram, policy, c);
          assert d in devices;
        } else {
          assert CandidateFor(rows, jobs, devices[n], mode, vram, policy, c);
        }
      }
    }
  }

  /** An allocation is refused exactly when too few devices may be had; otherwise it is that many, each under
      the index of one that may, and none twice. */
  lemma {:induction false} AllocatedExactlyWhenEnoughMayBeHad(
      rows: seq<Row>, jobs: seq<RunningJob>, gpu: Option<GpuInfo>, count: nat, mode: GpuMode, vram: Mib,
      policy: GpuPolicy)
    ensures var got := Allocate(rows, jobs, gpu, count, mode, vram, policy);
      if count == 0 || gpu.None? || !gpu.value.available then got == Some([])
      else
        && (got.None? <==> AllowedCount(rows, jobs, gpu.value.devices, mode, vram, policy) < count)
        && (got.Some? ==> |got.value| == count)
        && (got.Some? ==> forall x :: x in got.value ==> exists d ::
              d in gpu.value.devices && d.index == x && Allowed(rows, jobs, d, mode, vram, policy))
        && (got.Some? && DistinctIndices(gpu.value.devices) ==>
              forall i, j :: 0 <= i < j < count ==> got.value[i] != got.value[j])
  {
    var got := Allocate(rows, jobs, gpu, count, mode, vram, policy);
    if count > 0 && gpu.Some? && gpu.value.available {
      var devices := gpu.value.devices;
      CandidatesAreTheAllowed(rows, jobs, devices, mode, vram, policy);
      if got.Some? {
        forall x | x in got.value
          ensures exists d :: d in devices && d.index == x && Allowed(rows, jobs, d, mode, vram, policy)
        {
          var d := GivenFrom(rows, jobs, devices, count, mode, vram, policy, x);
        }
        if DistinctIndices(devices) {
          AllocationIsSound(rows, jobs, gpu.value, count, mode, vram, policy);
        }
      }
    }
  }

  /** The device behind an index handed out, with its place in the ranking. */
  lemma {:induction false} GivenFrom(
      rows: seq<Row>, jobs: seq<RunningJob>, devices: seq<GpuDevice>, count: nat, mode: GpuMode, vram: Mib,
      policy: GpuPolicy, x: int)
      returns (d: GpuDevice)
    requires count <= |Candidates(rows, jobs, devices, mode, vram, policy)|
    requires x in Indices(FreestFirst(Candidates(rows, jobs, devices, mode, vram, policy))[..count])
    ensures d in devices && d.index == x && Allowed(rows, jobs, d, mode, vram, policy)
    ensures var sorted := FreestFirst(Candidates(rows, jobs, devices, mode, vram, policy));
      exists k :: 0 <= k < count && CandidateFor(rows, jobs, d, mode, vram, policy, sorted[k])
  {
    var cs := Candidates(rows, jobs, devices, mode, vram, policy);
    var sorted := FreestFirst(cs);
    FreestFirstSorts(cs);
    CandidatesAreTheAllowed(rows, jobs, devices, mode, vram, policy);
    var k :| 0 <= k < count && Indices(sorted[..count])[k] == x;
    assert sorted[k] in sorted;
    d :| d in devices && CandidateFor(rows, jobs, d, mode, vram, policy, sorted[k]);
    AllowedMeansRated(rows, jobs, d, mode, vram, policy);
  }

  /** One device is preferred to another: the idle to the shared, the measured to the unmeasured, the freer to the
      fuller. */
  ghost predicate NoWorse(jobs: seq<RunningJob>, d: GpuDevice, e: GpuDevice) {
    if Occupied(jobs, d.index) then Occupied(jobs, e.index)
    else if Occupied(jobs, e.index) then true
    else if Measured(e) then Measured(d) && FreePart(d) >= FreePart(e)
    else true
  }

  /** No reading is absurd: nothing has more in use than it has. */
  predicate Plausible(d: GpuDevice) {
    Measured(d) ==> FreeOf(d) >= 0.0
  }

  lemma {:induction false} PartsAreNotNegative(d: GpuDevice)
    requires Plausible(d) && Measured(d)
    ensures FreePart(d) >= 0.0
  {
  }

  lemma {:induction false} RatesArePreferences(
      rows: seq<Row>, jobs: seq<RunningJob>, d: GpuDevice, e: GpuDevice, mode: GpuMode, vram: Mib, policy: GpuPolicy)
    requires Plausible(d) && Plausible(e)
    requires Rate(d, OccupancyOf(rows, jobs, d.index), mode, vram, policy).Some?
    requires Rate(e, OccupancyOf(rows, jobs, e.index), mode, vram, policy).Some?
    ensures var one := Rate(d, OccupancyOf(rows, jobs, d.index), mode, vram, policy);
      var other := Rate(e, OccupancyOf(rows, jobs, e.index), mode, vram, policy);
      one.value >= other.value <==> NoWorse(jobs, d, e)
  {
    OccupancyIsWhoIsThere(rows, jobs, d.index);
    OccupancyIsWhoIsThere(rows, jobs, e.index);
    PartsAndPercentages(d);
    PartsAndPercentages(e);
    if Measured(d) {
      PartsAreNotNegative(d);
    }
    if Measured(e) {
      PartsAreNotNegative(e);
    }
  }

  /** Of the devices that may be had the best are handed out: of one that is and one that is left over, the one
      handed out is no worse. */
  lemma {:induction false} BestDevicesAreHandedOut(
      rows: seq<Row>, jobs: seq<RunningJob>, gpu: GpuInfo, count: nat, mode: GpuMode, vram: Mib, policy: GpuPolicy,
      d: GpuDevice, e: GpuDevice)
    requires DistinctIndices(gpu.devices) && gpu.available && count > 0
    requires Allocate(rows, jobs, Some(gpu), count, mode, vram, policy).Some?
    requires d in gpu.devices && d.index in Allocate(rows, jobs, Some(gpu), count, mode, vram, policy).value
    requires e in gpu.devices && e.index !in Allocate(rows, jobs, Some(gpu), count, mode, vram, policy).value
    requires Allowed(rows, jobs, e, mode, vram, policy) && Plausible(d) && Plausible(e)
    ensures NoWorse(jobs, d, e)
  {
    var devices := gpu.devices;
    var cs := Candidates(rows, jobs, devices, mode, vram, policy);
    var sorted := FreestFirst(cs);
    var got := Indices(sorted[..count]);
    var d' := GivenFrom(rows, jobs, devices, count, mode, vram, policy, d.index);
    SameIndexSameDevice(devices, d, d');
    var i :| 0 <= i < count && CandidateFor(rows, jobs, d, mode, vram, policy, sorted[i]);
    CandidatesAreTheAllowed(rows, jobs, devices, mode, vram, policy);
    AllowedMeansRated(rows, jobs, e, mode, vram, policy);
    var c := Candidate(Rate(e, OccupancyOf(rows, jobs, e.index), mode, vram, policy).value, e.index);
    assert CandidateFor(rows, jobs, e, mode, vram, policy, c);
    FreestFirstSorts(cs);
    forall k | 0 <= k < count ensures sorted[k].index != e.index {
      assert got[k] in got;
    }
    assert c in sorted;
    var j :| 0 <= j < |sorted| && sorted[j] == c;
    RatesArePreferences(rows, jobs, d, e, mode, vram, policy);
  }

  lemma {:induction false} SameIndexSameDevice(devices: seq<GpuDevice>, d: GpuDevice, e: GpuDevice)
    requires DistinctIndices(devices) && d in devices && e in devices && d.index == e.index
    ensures d == e
  {
    var i :| 0 <= i < |devices| && devices[i] == d;
    var j :| 0 <= j < |devices| && devices[j] == e;
  }
}
