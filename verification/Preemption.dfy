/** Preemption: which running jobs a waiting one may have stopped, in what order, and how few. */
module Preemption {
  import opened Wrappers
  import opened Resources
  import opened QueueRows
  import opened Devices
  import opened World

  /** The rank the preemption code compares. Zero is falsy in the source's `rank or 100`, so the
      highest rank there is, critical, is compared as if it were normal. */
  function EffectiveRank(row: Row): int {
    if row.rank == 0 then 100 else row.rank
  }

  function RanFor(now: real, row: Row): real {
    if row.startedAt.None? then 0.0 else Max(0.0, now - row.startedAt.value)
  }

  predicate Displaceable(env: TickEnv, w: World, waiter: Row, row: Row) {
    && row.state == Running
    && !row.preemptRequested
    && EffectiveRank(row) > EffectiveRank(waiter)
    && (env.preemption.requireOptIn ==> row.preemptible)
    && RanFor(env.now, row) >= env.preemption.minRuntime
    && row.id in w.Active()
  }

  function Eligible(env: TickEnv, w: World, waiter: Row, rows: seq<Row>): seq<Row> {
    if rows == [] then []
    else (if Displaceable(env, w, waiter, rows[0]) then [rows[0]] else []) + Eligible(env, w, waiter, rows[1..])
  }

  /** Lowest priority first; among equals the one running longest, as the source's sort key has it. */
  predicate GoesFirst(env: TickEnv, a: Row, b: Row) {
    EffectiveRank(a) > EffectiveRank(b)
    || (EffectiveRank(a) == EffectiveRank(b) && RanFor(env.now, a) > RanFor(env.now, b))
  }

  function Slot(env: TickEnv, row: Row, sorted: seq<Row>): seq<Row> {
    if sorted == [] || GoesFirst(env, row, sorted[0]) then [row] + sorted
    else [sorted[0]] + Slot(env, row, sorted[1..])
  }

  /** Stable: rows that tie keep their listing order. */
  function ByCost(env: TickEnv, rows: seq<Row>): seq<Row> {
    if rows == [] then [] else Slot(env, rows[|rows| - 1], ByCost(env, rows[..|rows| - 1]))
  }

  function Candidates(env: TickEnv, w: World, waiter: Row): seq<Row> {
    if env.preemption.enabled then ByCost(env, Eligible(env, w, waiter, w.rows)) else []
  }

  function RowIds(rows: seq<Row>): set<JobId> {
    set r | r in rows :: r.id
  }

  /** Once exactly these jobs are stopped a slot is free and the waiter is admitted beside every other
      running row. The rows counted are all that run, wherever they run. */
  predicate Suffices(env: TickEnv, w: World, waiter: Row, gone: set<JobId>) {
    && w.InFlight() - |gone| < env.slots
    && var left := ActiveRequests(env.cfg, w.rows, Ids(w.rows) - gone);
      Admit(env.cfg, RequestFor(env.cfg, waiter), left, env.node).Admitted?
  }

  /** The shortest prefix, no shorter than `k`, whose removal suffices; nothing when none does. */
  function ShortestPrefix(env: TickEnv, w: World, waiter: Row, candidates: seq<Row>, k: nat): (n: nat)
    requires 1 <= k <= |candidates| + 1
    ensures n <= |candidates|
    decreases |candidates| + 1 - k
  {
    if k > |candidates| then 0
    else if Suffices(env, w, waiter, RowIds(candidates[..k])) then k
    else ShortestPrefix(env, w, waiter, candidates, k + 1)
  }

  function Victims(env: TickEnv, w: World, waiter: Row): seq<Row> {
    var candidates := Candidates(env, w, waiter);
    candidates[..ShortestPrefix(env, w, waiter, candidates, 1)]
  }

  /** Asking a row to stop sets its flag once; nothing else about any row changes. */
  function Marked(rows: seq<Row>, victims: set<JobId>, waiter: Option<JobId>): seq<Row> {
    if rows == [] then []
    else
      [if rows[0].id in victims && rows[0].state == Running && !rows[0].preemptRequested
       then rows[0].(preemptRequested := true, preemptBy := waiter) else rows[0]]
      + Marked(rows[1..], victims, waiter)
  }

  function Displaced(env: TickEnv, w: World, waiter: Row): World {
    w.(rows := Marked(w.rows, RowIds(Victims(env, w, waiter)), Some(waiter.id)))
  }

  // ---- marking is only a flag --------------------------------------------

  /** Two rows that differ at most in their preemption flag. */
  predicate SameButFlag(a: Row, b: Row) {
    a.(preemptRequested := b.preemptRequested, preemptBy := b.preemptBy) == b
  }

  lemma {:induction false} MarkingKeepsIds(rows: seq<Row>, victims: set<JobId>, waiter: Option<JobId>)
    ensures Ids(Marked(rows, victims, waiter)) == Ids(rows)
    ensures Distinct(rows) ==> Distinct(Marked(rows, victims, waiter))
  {
    if rows != [] {
      MarkingKeepsIds(rows[1..], victims, waiter);
    }
  }

  /** Every row is as it was, or is running and had its flag set. */
  lemma {:induction false} MarkingOnlyFlags(rows: seq<Row>, victims: set<JobId>, waiter: Option<JobId>, id: JobId)
    ensures var was, row := Find(rows, id), Find(Marked(rows, victims, waiter), id);
      row == was || (was.Some? && row.Some? && was.value.state == Running && SameButFlag(was.value, row.value))
  {
    if rows != [] && rows[0].id != id {
      MarkingOnlyFlags(rows[1..], victims, waiter, id);
    }
  }

  lemma {:induction false} MarkingKeepsLedger(
      cfg: Limits, rows: seq<Row>, victims: set<JobId>, waiter: Option<JobId>, active: set<JobId>)
    ensures ActiveRequests(cfg, Marked(rows, victims, waiter), active) == ActiveRequests(cfg, rows, active)
  {
    if rows != [] {
      MarkingKeepsLedger(cfg, rows[1..], victims, waiter, active);
    }
  }

  // ---- the candidates ----------------------------------------------------

  ghost predicate CostOrdered(env: TickEnv, rows: seq<Row>) {
    forall i, j :: 0 <= i < j < |rows| ==> !GoesFirst(env, rows[j], rows[i])
  }

  predicate DistinctIds(rows: seq<Row>) {
    forall i, j :: 0 <= i < j < |rows| ==> rows[i].id != rows[j].id
  }

  lemma {:induction false} SlotMembers(env: TickEnv, row: Row, sorted: seq<Row>)
    ensures forall r :: r in Slot(env, row, sorted) <==> r == row || r in sorted
  {
    if sorted != [] && !GoesFirst(env, row, sorted[0]) {
      SlotMembers(env, row, sorted[1..]);
    }
  }

  lemma {:induction false} SlotFacts(env: TickEnv, row: Row, sorted: seq<Row>)
    ensures forall r :: r in Slot(env, row, sorted) <==> r == row || r in sorted
    ensures CostOrdered(env, sorted) ==> CostOrdered(env, Slot(env, row, sorted))
    ensures DistinctIds(sorted) && row.id !in RowIds(sorted) ==> DistinctIds(Slot(env, row, sorted))
  {
    SlotMembers(env, row, sorted);
    if sorted != [] && !GoesFirst(env, row, sorted[0]) {
      var rest := Slot(env, row, sorted[1..]);
      SlotFacts(env, row, sorted[1..]);
      SlotMembers(env, row, sorted[1..]);
      assert sorted[0] in sorted;
      forall k | 0 <= k < |rest| ensures rest[k] == row || rest[k] in sorted[1..] {
        assert rest[k] in rest;
      }
    } else if sorted != [] {
      forall k | 0 <= k < |sorted| ensures sorted[k] in sorted {
      }
    }
  }

  lemma {:induction false} ByCostFacts(env: TickEnv, rows: seq<Row>)
    ensures forall r :: r in ByCost(env, rows) <==> r in rows
    ensures CostOrdered(env, ByCost(env, rows))
    ensures DistinctIds(rows) ==> DistinctIds(ByCost(env, rows))
  {
    if rows != [] {
      var n := |rows| - 1;
      ByCostFacts(env, rows[..n]);
      SlotFacts(env, rows[n], ByCost(env, rows[..n]));
      assert rows == rows[..n] + [rows[n]];
      if DistinctIds(rows) {
        forall r | r in rows[..n] ensures r.id != rows[n].id {
          var k :| 0 <= k < n && rows[k] == r;
        }
      }
    }
  }

  lemma {:induction false} EligibleFacts(env: TickEnv, w: World, waiter: Row, rows: seq<Row>)
    ensures forall r :: r in Eligible(env, w, waiter, rows) <==> r in rows && Displaceable(env, w, waiter, r)
    ensures Distinct(rows) ==> DistinctIds(Eligible(env, w, waiter, rows))
  {
    if rows != [] {
      EligibleFacts(env, w, waiter, rows[1..]);
      var rest := Eligible(env, w, waiter, rows[1..]);
      forall k | 0 <= k < |rest| ensures rest[k].id in Ids(rows[1..]) {
        assert rest[k] in rest;
        MemberIsListed(rows[1..], rest[k]);
      }
    }
  }

  lemma {:induction false} MemberIsListed(rows: seq<Row>, row: Row)
    requires row in rows
    ensures row.id in Ids(rows)
  {
    if rows[0] != row {
      MemberIsListed(rows[1..], row);
    }
  }

  lemma {:induction false} CandidatesFacts(env: TickEnv, w: World, waiter: Row)
    requires env.preemption.enabled && Distinct(w.rows)
    ensures var cs := Candidates(env, w, waiter);
      && (forall r :: r in cs <==> r in w.rows && Displaceable(env, w, waiter, r))
      && CostOrdered(env, cs) && DistinctIds(cs)
  {
    EligibleFacts(env, w, waiter, w.rows);
    ByCostFacts(env, Eligible(env, w, waiter, w.rows));
  }

  // ---- sufficiency is monotone -------------------------------------------

  lemma {:induction false} FewerActiveReserveLess(cfg: Limits, rows: seq<Row>, few: set<JobId>, many: set<JobId>)
    requires few <= many
    ensures Within(Reserved(cfg, rows, few), Reserved(cfg, rows, many))
  {
    if rows != [] {
      FewerActiveReserveLess(cfg, rows[1..], few, many);
      ReservedFirst(cfg, rows, few);
      ReservedFirst(cfg, rows, many);
    }
  }

  /** Stopping more jobs never makes stopping insufficient. */
  lemma {:induction false} StoppingMoreStillSuffices(
      env: TickEnv, w: World, waiter: Row, few: set<JobId>, many: set<JobId>)
    requires few <= many && Suffices(env, w, waiter, few)
    ensures Suffices(env, w, waiter, many)
  {
    SmallerSet(few, many);
    FewerActiveReserveLess(env.cfg, w.rows, Ids(w.rows) - many, Ids(w.rows) - few);
    var want := RequestFor(env.cfg, waiter);
    var left := ActiveRequests(env.cfg, w.rows, Ids(w.rows) - many);
    var right := ActiveRequests(env.cfg, w.rows, Ids(w.rows) - few);
    if Admit(env.cfg, want, left, env.node).Refused? {
      AdmitOnlyGetsHarder(env.cfg, want, want, left, right, env.node);
    }
  }

  lemma {:induction false} ShortestPrefixFacts(env: TickEnv, w: World, waiter: Row, candidates: seq<Row>, k: nat)
    requires 1 <= k <= |candidates| + 1
    ensures var n := ShortestPrefix(env, w, waiter, candidates, k);
      && (n == 0 ==> forall j :: k <= j <= |candidates| ==> !Suffices(env, w, waiter, RowIds(candidates[..j])))
      && (n > 0 ==> k <= n && Suffices(env, w, waiter, RowIds(candidates[..n])))
      && (n > 0 ==> forall j :: k <= j < n ==> !Suffices(env, w, waiter, RowIds(candidates[..j])))
    decreases |candidates| + 1 - k
  {
    if k <= |candidates| && !Suffices(env, w, waiter, RowIds(candidates[..k])) {
      ShortestPrefixFacts(env, w, waiter, candidates, k + 1);
    }
  }

  // ---- main results ------------------------------------------------------

  /** Preemption is justified: every victim is a running job of this dispatcher, outranked as the code
      compares ranks, opted in when that is required, past its minimum runtime and not already
      stopping; and no candidate left running has a lower priority than a victim. */
  lemma {:induction false} VictimsAreJustified(env: TickEnv, w: World, waiter: Row, victim: Row)
    requires Distinct(w.rows) && victim in Victims(env, w, waiter)
    ensures env.preemption.enabled && victim in w.rows && Displaceable(env, w, waiter, victim)
    ensures victim.state == Running && victim.id in w.Active() && !victim.preemptRequested
    ensures env.preemption.requireOptIn ==> victim.preemptible
    ensures env.preemption.minRuntime > 0.0 ==>
      victim.startedAt.Some? && victim.startedAt.value + env.preemption.minRuntime <= env.now
    ensures (if victim.rank == 0 then 100 else victim.rank) > (if waiter.rank == 0 then 100 else waiter.rank)
    ensures forall other ::
      (other in w.rows && Displaceable(env, w, waiter, other) && other !in Victims(env, w, waiter))
      ==> EffectiveRank(other) <= EffectiveRank(victim)
  {
    CandidatesFacts(env, w, waiter);
    var cs := Candidates(env, w, waiter);
    var n := ShortestPrefix(env, w, waiter, cs, 1);
    var i :| 0 <= i < n && cs[i] == victim;
    forall k | 0 <= k < n ensures cs[k] in Victims(env, w, waiter) {
      assert cs[..n][k] == cs[k];
    }
    forall other | other in w.rows && Displaceable(env, w, waiter, other) && other !in Victims(env, w, waiter)
      ensures EffectiveRank(other) <= EffectiveRank(victim)
    {
      assert other in cs;
      var j :| 0 <= j < |cs| && cs[j] == other;
      assert !GoesFirst(env, cs[j], cs[i]);
    }
  }

  /** Each question is minimal as far as it looks: with the victims stopped the waiter has a slot and passes
      admission, and no shorter run of the same order that stops anybody gives it that. Minimality is per
      question; the next one does not know of this one's victims (see `AskingAgain`). */
  lemma {:induction false} VictimsAreMinimal(env: TickEnv, w: World, waiter: Row)
    requires Distinct(w.rows) && Victims(env, w, waiter) != []
    ensures Suffices(env, w, waiter, RowIds(Victims(env, w, waiter)))
    ensures var vs := Victims(env, w, waiter);
      forall j :: 1 <= j < |vs| ==> !Suffices(env, w, waiter, RowIds(vs[..j]))
  {
    var cs := Candidates(env, w, waiter);
    ShortestPrefixFacts(env, w, waiter, cs, 1);
    forall j | 1 <= j < |Victims(env, w, waiter)|
      ensures !Suffices(env, w, waiter, RowIds(Victims(env, w, waiter)[..j]))
    {
      assert Victims(env, w, waiter)[..j] == cs[..j];
    }
  }

  /** Stopping nobody is never tried. It would have passed the same test exactly when the victims are not
      minimal, and then a single job, the first candidate, is stopped. */
  lemma {:induction false} NeedlessExactlyWhenNobodyWouldDo(env: TickEnv, w: World, waiter: Row)
    requires Distinct(w.rows) && Victims(env, w, waiter) != []
    ensures var victims := Victims(env, w, waiter);
      Suffices(env, w, waiter, {}) <==> exists j :: 0 <= j < |victims| && Suffices(env, w, waiter, RowIds(victims[..j]))
    ensures Suffices(env, w, waiter, {}) ==> Victims(env, w, waiter) == [Candidates(env, w, waiter)[0]]
  {
    var cs, victims := Candidates(env, w, waiter), Victims(env, w, waiter);
    VictimsAreMinimal(env, w, waiter);
    assert RowIds(victims[..0]) == {};
    if Suffices(env, w, waiter, {}) {
      StoppingMoreStillSuffices(env, w, waiter, {}, RowIds(cs[..1]));
      assert Suffices(env, w, waiter, RowIds(victims[..0]));
      assert ShortestPrefix(env, w, waiter, cs, 1) == 1;
    }
  }

  /** A non-empty choice of displaceable jobs whose end would give the waiter a slot and pass admission. */
  ghost predicate WouldDo(env: TickEnv, w: World, waiter: Row, choice: seq<Row>) {
    && choice != [] && (forall r :: r in choice ==> r in w.rows && Displaceable(env, w, waiter, r))
    && Suffices(env, w, waiter, RowIds(choice))
  }

  lemma {:induction false} VictimsWouldDo(env: TickEnv, w: World, waiter: Row)
    requires Distinct(w.rows) && Victims(env, w, waiter) != []
    ensures WouldDo(env, w, waiter, Victims(env, w, waiter))
  {
    VictimsAreMinimal(env, w, waiter);
    forall r | r in Victims(env, w, waiter) ensures r in w.rows && Displaceable(env, w, waiter, r) {
      VictimsAreJustified(env, w, waiter, r);
    }
  }

  lemma {:induction false} AllCandidatesWouldDo(env: TickEnv, w: World, waiter: Row, choice: seq<Row>)
    requires env.preemption.enabled && Distinct(w.rows) && WouldDo(env, w, waiter, choice)
    ensures Victims(env, w, waiter) != []
  {
    var cs := Candidates(env, w, waiter);
    CandidatesFacts(env, w, waiter);
    forall id | id in RowIds(choice) ensures id in RowIds(cs) {
      var r :| r in choice && r.id == id;
      assert r in cs;
    }
    assert choice[0] in cs;
    StoppingMoreStillSuffices(env, w, waiter, RowIds(choice), RowIds(cs));
    ShortestPrefixFacts(env, w, waiter, cs, 1);
    assert cs[..|cs|] == cs;
  }

  /** Jobs are stopped exactly when some choice, any choice at all, would do. */
  lemma {:induction false} StopsExactlyWhenSomeChoiceSuffices(env: TickEnv, w: World, waiter: Row)
    requires env.preemption.enabled && Distinct(w.rows)
    ensures Victims(env, w, waiter) != [] <==> exists choice: seq<Row> :: WouldDo(env, w, waiter, choice)
  {
    if Victims(env, w, waiter) != [] {
      VictimsWouldDo(env, w, waiter);
    }
    forall choice: seq<Row> | WouldDo(env, w, waiter, choice) ensures Victims(env, w, waiter) != [] {
      AllCandidatesWouldDo(env, w, waiter, choice);
    }
  }

  /** The rows of one priority that have run for one time, in the order they stand. */
  function OfCost(env: TickEnv, rows: seq<Row>, rank: int, ran: real): seq<Row> {
    if rows == [] then []
    else
      (if EffectiveRank(rows[0]) == rank && RanFor(env.now, rows[0]) == ran then [rows[0]] else [])
      + OfCost(env, rows[1..], rank, ran)
  }

  lemma {:induction false} OfCostAppend(env: TickEnv, a: seq<Row>, row: Row, rank: int, ran: real)
    ensures OfCost(env, a + [row], rank, ran) == OfCost(env, a, rank, ran) + OfCost(env, [row], rank, ran)
  {
    if a == [] {
      assert a + [row] == [row];
    } else {
      assert (a + [row])[1..] == a[1..] + [row];
      OfCostAppend(env, a[1..], row, rank, ran);
    }
  }

  lemma {:induction false} SlotBehindItsEquals(env: TickEnv, row: Row, sorted: seq<Row>, rank: int, ran: real)
    requires CostOrdered(env, sorted)
    ensures OfCost(env, Slot(env, row, sorted), rank, ran)
         == OfCost(env, sorted, rank, ran) + OfCost(env, [row], rank, ran)
  {
    if sorted == [] {
    } else if GoesFirst(env, row, sorted[0]) {
      assert ([row] + sorted)[1..] == sorted && [row][1..] == [];
      if EffectiveRank(row) == rank && RanFor(env.now, row) == ran {
        forall i | 0 <= i < |sorted| ensures EffectiveRank(sorted[i]) != rank || RanFor(env.now, sorted[i]) != ran {
          assert i > 0 ==> !GoesFirst(env, sorted[i], sorted[0]);
        }
        NoneOfCost(env, sorted, rank, ran);
      }
    } else {
      assert Slot(env, row, sorted)[1..] == Slot(env, row, sorted[1..]);
      SlotBehindItsEquals(env, row, sorted[1..], rank, ran);
    }
  }

  lemma {:induction false} NoneOfCost(env: TickEnv, rows: seq<Row>, rank: int, ran: real)
    requires forall i :: 0 <= i < |rows| ==> EffectiveRank(rows[i]) != rank || RanFor(env.now, rows[i]) != ran
    ensures OfCost(env, rows, rank, ran) == []
  {
    if rows != [] {
      NoneOfCost(env, rows[1..], rank, ran);
    }
  }

  /** Candidates that tie stay in dispatch order. */
  lemma {:induction false} TiesKeepDispatchOrder(env: TickEnv, rows: seq<Row>, rank: int, ran: real)
    ensures OfCost(env, ByCost(env, rows), rank, ran) == OfCost(env, rows, rank, ran)
  {
    if rows != [] {
      var n := |rows| - 1;
      TiesKeepDispatchOrder(env, rows[..n], rank, ran);
      ByCostFacts(env, rows[..n]);
      SlotBehindItsEquals(env, rows[n], ByCost(env, rows[..n]), rank, ran);
      assert rows == rows[..n] + [rows[n]];
      OfCostAppend(env, rows[..n], rows[n], rank, ran);
    }
  }

  // ---- equals ------------------------------------------------------------

  /** Among candidates of equal rank, those that have run shortest come first. */
  ghost predicate LeastWorkFirst(env: TickEnv, rows: seq<Row>) {
    forall i, j :: 0 <= i < j < |rows| && EffectiveRank(rows[i]) == EffectiveRank(rows[j]) ==>
      RanFor(env.now, rows[i]) <= RanFor(env.now, rows[j])
  }

  ghost predicate EqualsRanEquallyLong(env: TickEnv, rows: seq<Row>) {
    forall i, j :: 0 <= i < j < |rows| && EffectiveRank(rows[i]) == EffectiveRank(rows[j]) ==>
      RanFor(env.now, rows[i]) == RanFor(env.now, rows[j])
  }

  /** The order is the other way round, so it puts the least work first only where there is none to choose
      from: where candidates of equal rank have run equally long. */
  lemma {:induction false} LeastWorkFirstExactlyWhenEqual(env: TickEnv, w: World, waiter: Row)
    requires Distinct(w.rows)
    ensures LeastWorkFirst(env, Candidates(env, w, waiter)) <==> EqualsRanEquallyLong(env, Candidates(env, w, waiter))
  {
    var cs := Candidates(env, w, waiter);
    if env.preemption.enabled {
      CandidatesFacts(env, w, waiter);
      forall i, j | 0 <= i < j < |cs| && EffectiveRank(cs[i]) == EffectiveRank(cs[j])
        ensures RanFor(env.now, cs[i]) >= RanFor(env.now, cs[j])
      {
        assert !GoesFirst(env, cs[j], cs[i]);
      }
    }
  }

  // ---- ranks -------------------------------------------------------------

  /** The pairs whose priorities are compared the wrong way round: a critical row is taken for a normal one,
      so a waiter between the two outranks it, and a critical waiter outranks nothing up to normal. */
  predicate Misranked(waiter: Row, row: Row) {
    (row.rank == 0 && 0 < waiter.rank < 100) || (waiter.rank == 0 && 0 < row.rank <= 100)
  }

  /** Ranks are compared as the priorities they stand for, except exactly for these pairs. */
  lemma {:induction false} RankedRightExactlyUnlessCritical(waiter: Row, row: Row)
    ensures (EffectiveRank(row) > EffectiveRank(waiter) <==> row.rank > waiter.rank) <==> !Misranked(waiter, row)
  {
  }

  /** A machine with one slot, taken by `running` for a minute and more, and nothing enforced. */
  function OneSlot(): TickEnv {
    var node := NodeSnapshot(HostMemory(None, None, None, None), None, 4, None, Reserve(0.0, 0.0, 0));
    TickEnv(Limits(false, 0.0, 0.0, 0, 99.0, 10.0, 0.0), Scheduling(true, 8, 900.0, 1800.0, true),
            PreemptionPolicy(true, true, 60.0), node, node.reserve, 0.0, 1, 100.0, [])
  }

  /** A job that asked for nothing, opted in and started at the beginning. */
  function Modest(id: JobId, rank: int, state: BackendState): Row {
    Row(id, rank, id, Some(0.0), Some(0.0), Some(0), 0, Exclusive, state, None, None, None,
        if state == Running then Some(0.0) else None, false, true, false, None, None, None, None, false, true)
  }

  /** Whether the only running job is displaced is the comparison of ranks and nothing else. */
  lemma {:induction false} OnlyRanksDecide(waiter: Row, row: Row)
    requires row == Modest(1, row.rank, Running) && waiter == Modest(2, waiter.rank, Queued)
    ensures var victims := Victims(OneSlot(), World([row], [RunningJob(1, [])], []), waiter);
      victims == if EffectiveRank(row) > EffectiveRank(waiter) then [row] else []
  {
    var env, w := OneSlot(), World([row], [RunningJob(1, [])], []);
    var cs := Candidates(env, w, waiter);
    assert Eligible(env, w, waiter, w.rows[1..]) == [];
    if EffectiveRank(row) > EffectiveRank(waiter) {
      assert Eligible(env, w, waiter, w.rows) == [row];
      OneCandidate(env, row);
      assert cs == [row] && cs[..1] == [row];
      assert RowIds([row]) == {1};
      assert Suffices(env, w, waiter, RowIds(cs[..1]));
    } else {
      assert Eligible(env, w, waiter, w.rows) == [];
    }
  }

  /** A critical job that opted in is displaced for one of high priority. */
  lemma {:induction false} CriticalCanBeDisplaced() returns (env: TickEnv, w: World, waiter: Row, victim: Row)
    ensures victim.rank == 0 && waiter.rank == 50
    ensures victim in Victims(env, w, waiter)
  {
    env, victim, waiter := OneSlot(), Modest(1, 0, Running), Modest(2, 50, Queued);
    w := World([victim], [RunningJob(1, [])], []);
    OnlyRanksDecide(waiter, victim);
  }

  /** A critical job waits behind a normal one that the same job, were it only of high priority, would
      displace. */
  lemma {:induction false} CriticalCannotDisplaceNormal()
    returns (env: TickEnv, w: World, waiter: Row, running: Row)
    ensures waiter.rank == 0 && running.rank == 100 && running in w.rows
    ensures Victims(env, w, waiter) == [] && Victims(env, w, waiter.(rank := 50)) == [running]
  {
    env, running, waiter := OneSlot(), Modest(1, 100, Running), Modest(2, 0, Queued);
    w := World([running], [RunningJob(1, [])], []);
    OnlyRanksDecide(waiter, running);
    OnlyRanksDecide(waiter.(rank := 50), running);
  }

  lemma {:induction false} OneCandidate(env: TickEnv, row: Row)
    ensures ByCost(env, [row]) == [row]
  {
    assert [row][..0] == [];
    assert ByCost(env, [row][..0]) == [];
  }

  function IfDisplaceable(env: TickEnv, w: World, waiter: Row, row: Row): seq<Row> {
    if Displaceable(env, w, waiter, row) then [row] else []
  }

  lemma {:induction false} EligibleOfThree(env: TickEnv, w: World, waiter: Row, a: Row, b: Row, c: Row)
    ensures Eligible(env, w, waiter, [a, b, c])
         == IfDisplaceable(env, w, waiter, a) + IfDisplaceable(env, w, waiter, b) + IfDisplaceable(env, w, waiter, c)
  {
    assert [a, b, c][1..] == [b, c] && [b, c][1..] == [c] && [c][1..] == [];
    assert Eligible(env, w, waiter, [c]) == IfDisplaceable(env, w, waiter, c) + [];
    assert Eligible(env, w, waiter, [b, c]) == IfDisplaceable(env, w, waiter, b) + IfDisplaceable(env, w, waiter, c);
  }

  /** The first candidate is the only victim where any one would do. */
  lemma {:induction false} FirstIsEnough(env: TickEnv, w: World, waiter: Row)
    requires Candidates(env, w, waiter) != []
    requires Suffices(env, w, waiter, {Candidates(env, w, waiter)[0].id})
    ensures Victims(env, w, waiter) == [Candidates(env, w, waiter)[0]]
  {
    var cs := Candidates(env, w, waiter);
    assert cs[..1] == [cs[0]] && RowIds([cs[0]]) == {cs[0].id};
    assert ShortestPrefix(env, w, waiter, cs, 1) == 1;
  }

  lemma {:induction false} TwoCandidates(env: TickEnv, a: Row, b: Row)
    requires !GoesFirst(env, b, a)
    ensures ByCost(env, [a, b]) == [a, b]
  {
    assert [a, b][..1] == [a] && [a][..0] == [] && [a][1..] == [];
    assert ByCost(env, []) == [];
    assert ByCost(env, [a]) == [a];
    assert Slot(env, b, []) == [b];
  }
}
