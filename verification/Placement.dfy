/** Placing work on other machines: how often a failing placement is retried, and what a cached
    report of a machine is charged. */
module Placement {
  import opened Wrappers
  import opened Resources
  import opened QueueRows

  // ---- backing off -------------------------------------------------------

  const FIRST_RETRY := 60.0
  const LONGEST_RETRY := 900.0

  datatype Retry = Retry(at: real, delay: real)
  datatype Key = Key(id: JobId, node: NodeName)

  function NextDelay(previous: real): real {
    Min(LONGEST_RETRY, Max(FIRST_RETRY, previous * 2.0))
  }

  function DelayOf(failures: map<Key, Retry>, key: Key): real {
    if key in failures then failures[key].delay else 0.0
  }

  predicate MayTry(failures: map<Key, Retry>, key: Key, now: real) {
    key !in failures || failures[key].at - now <= 0.0
  }

  function Failed(failures: map<Key, Retry>, key: Key, now: real): map<Key, Retry> {
    var delay := NextDelay(DelayOf(failures, key));
    failures[key := Retry(now + delay, delay)]
  }

  function Pow2(k: nat): (p: real)
    ensures p >= 1.0
  {
    if k == 0 then 1.0 else 2.0 * Pow2(k - 1)
  }

  /** The delay after `k` failures in a row. */
  function DelayAfter(k: nat): real {
    if k == 0 then 0.0 else NextDelay(DelayAfter(k - 1))
  }

  /** Its closed form. */
  lemma {:induction false} DelayClosedForm(k: nat)
    requires k >= 1
    ensures DelayAfter(k) == if 60.0 * Pow2(k - 1) < 900.0 then 60.0 * Pow2(k - 1) else 900.0
    ensures 60.0 <= DelayAfter(k) <= 900.0
  {
    if k == 1 {
      assert DelayAfter(0) == 0.0 && Pow2(0) == 1.0;
    } else {
      DelayClosedForm(k - 1);
    }
  }

  /** The sum of the first `n` delays. */
  function DelaysUpTo(n: nat): real {
    if n == 0 then 0.0 else DelaysUpTo(n - 1) + DelayAfter(n)
  }

  /** One failed attempt; attempts of all jobs on all nodes interleave in one list. */
  datatype Attempt = Attempt(key: Key, at: real)

  function FailuresAfter(attempts: seq<Attempt>, k: nat): map<Key, Retry>
    requires k <= |attempts|
  {
    if k == 0 then map[] else Failed(FailuresAfter(attempts, k - 1), attempts[k - 1].key, attempts[k - 1].at)
  }

  predicate Due(attempts: seq<Attempt>, k: nat)
    requires k < |attempts|
  {
    MayTry(FailuresAfter(attempts, k), attempts[k].key, attempts[k].at)
  }

  ghost predicate Respected(attempts: seq<Attempt>) {
    forall k :: 0 <= k < |attempts| ==> Due(attempts, k)
  }

  /** The times one job tried one node. */
  function TriesOf(attempts: seq<Attempt>, k: nat, key: Key): seq<real>
    requires k <= |attempts|
  {
    if k == 0 then []
    else TriesOf(attempts, k - 1, key) + if attempts[k - 1].key == key then [attempts[k - 1].at] else []
  }

  /** The retry entry says when the next attempt is due, and the attempts so far span their delays. */
  predicate Spread(tries: seq<real>, failures: map<Key, Retry>, key: Key) {
    if tries == [] then key !in failures
    else
      && key in failures
      && failures[key] == Retry(tries[|tries| - 1] + DelayAfter(|tries|), DelayAfter(|tries|))
      && tries[|tries| - 1] - tries[0] >= DelaysUpTo(|tries| - 1)
  }

  lemma {:induction false} OneMoreFailure(tries: seq<real>, failures: map<Key, Retry>, key: Key, now: real)
    requires Spread(tries, failures, key) && MayTry(failures, key, now)
    ensures Spread(tries + [now], Failed(failures, key, now), key)
  {
    var n := |tries|;
    assert DelayAfter(n + 1) == NextDelay(DelayAfter(n));
    assert DelayOf(failures, key) == DelayAfter(n);
    assert (tries + [now])[n] == now;
    if n > 0 {
      assert (tries + [now])[0] == tries[0];
      assert DelaysUpTo(n) == DelaysUpTo(n - 1) + DelayAfter(n);
    }
  }

  /** Failing attempts of one job on one node, however others interleave: `n` of them span at least the
      first `n - 1` delays, and the next is due a full delay after the last. */
  lemma {:induction false} FailingAttemptsSpreadOut(attempts: seq<Attempt>, k: nat, key: Key)
    requires Respected(attempts) && k <= |attempts|
    ensures Spread(TriesOf(attempts, k, key), FailuresAfter(attempts, k), key)
  {
    if k > 0 {
      FailingAttemptsSpreadOut(attempts, k - 1, key);
      assert Due(attempts, k - 1);
      var before := TriesOf(attempts, k - 1, key);
      if attempts[k - 1].key == key {
        OneMoreFailure(before, FailuresAfter(attempts, k - 1), key, attempts[k - 1].at);
      } else {
        assert before + [] == before;
      }
    }
  }

  // ---- the remote ledger -------------------------------------------------

  /** What a machine last said about itself. Reachability, protocol and clock are answers given here. */
  datatype Report = Report(
    online: bool, compatible: bool, queued: nat, running: seq<ResourceRequest>, snapshot: Option<NodeSnapshot>)

  /** The admission rule applied to a report: nothing queued there, and room beside what it runs. */
  predicate RemoteAdmits(cfg: Limits, report: Report, request: ResourceRequest) {
    && report.online && report.compatible && report.queued == 0 && report.snapshot.Some?
    && Admit(cfg, request, report.running, report.snapshot.value).Admitted?
  }

  function Charge(report: Report, request: ResourceRequest): Report {
    report.(running := report.running + [request])
  }

  /** What the dispatcher keeps about other machines: placements that failed, what each machine last
      reported, and the jobs it queued elsewhere and then took back. */
  datatype Elsewhere = Elsewhere(failures: map<Key, Retry>, reports: map<NodeName, Report>, recalls: seq<Recall>)

  datatype Recall = Recall(node: NodeName, remoteId: int)

  function NothingElsewhere(): Elsewhere {
    Elsewhere(map[], map[], [])
  }

  /** The machine is known, and as far as its report tells it would start this job now. */
  predicate Welcomes(cfg: Limits, away: Elsewhere, node: NodeName, request: ResourceRequest) {
    node in away.reports && RemoteAdmits(cfg, away.reports[node], request)
  }

  /** A job has been placed: its failures there are forgotten and the machine's report is charged. */
  function PlacedOn(away: Elsewhere, key: Key, request: ResourceRequest): Elsewhere {
    away.(failures := away.failures - {key},
          reports := if key.node in away.reports
                     then away.reports[key.node := Charge(away.reports[key.node], request)] else away.reports)
  }

  /** Failures of jobs that no longer wait are forgotten. */
  function LiveFailures(failures: map<Key, Retry>, live: set<JobId>): map<Key, Retry> {
    map key | key in failures && key.id in live :: failures[key]
  }

  // ---- a stale report ----------------------------------------------------

  /** The same report, charged since, and not past what is usable there unless it said so itself. */
  ghost predicate FairlyCharged(before: Report, after: Report) {
    && after == before.(running := after.running)
    && (before.snapshot.Some? ==>
          LedgerGrowth(SumReservations(before.running), SumReservations(after.running), before.snapshot.value))
  }

  lemma {:induction false} ChargingIsFair(cfg: Limits, report: Report, request: ResourceRequest)
    requires cfg.enforce && RemoteAdmits(cfg, report, request)
    ensures FairlyCharged(report, Charge(report, request))
  {
    AdmittedStaysInLedger(cfg, request, report.running, report.snapshot.value);
  }

  lemma {:induction false} FairTwice(a: Report, b: Report, c: Report)
    requires FairlyCharged(a, b) && FairlyCharged(b, c)
    ensures FairlyCharged(a, c)
  {
  }
}
