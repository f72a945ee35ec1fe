/** How far a tick looks past jobs that cannot start: which rows its list of refused requests stands for,
    which passed-over jobs use up the look-ahead, and which jobs it therefore never judges. */
module LookAhead {
  import opened Resources
  import opened QueueRows
  import opened Devices
  import opened World
  import opened Scan
  import opened StepEffects
  import opened TickTheorems

  // ---- one turn ----------------------------------------------------------

  /** The job is judged on this machine at its turn and refused, and no other machine is asked to take it. */
  predicate RefusedHere(env: TickEnv, s: State, row: Row, later: seq<Row>, fate: Fate) {
    var s1 := Meanwhile(s, row, fate);
    && row.pinned.None? && !s.closed
    && Judge(env, s1, row).NotHere?
    && ChooseNode(env, s1, row, later, false, fate).None?
  }

  /** The job waits because a machine it was to go to did not take it. */
  predicate LeftWaiting(env: TickEnv, s: State, row: Row, later: seq<Row>, fate: Fate) {
    var s1 := Meanwhile(s, row, fate);
    if row.pinned.Some? then !TryPinned(env, s1, row, row.pinned.value, fate).1
    else
      var chosen := ChooseNode(env, s1, row, later, false, fate);
      && !s.closed && Judge(env, s1, row).NotHere? && chosen.Some?
      && !RemoteAttempt(env, s1, row, chosen.value, fate).1
  }

  // ---- counting, apart from why ------------------------------------------

  /** What a turn amounts to for the count: refused here, left waiting for another machine, and the request. */
  datatype Pass = Pass(refused: bool, left: bool, ask: Asked)

  /** The scan's list of refused requests, how many jobs it has looked past, and whether it is closed. */
  datatype Count = Count(refused: seq<Asked>, skipped: nat, closed: bool)

  predicate Dominated(refused: seq<Asked>, ask: Asked) {
    exists r :: r in refused && AsksAtLeast(ask, r)
  }

  function NextCount(c: Count, p: Pass, sched: Scheduling): Count {
    if p.left then Count(c.refused, c.skipped + 1, c.closed || c.skipped + 1 > sched.maxSkip)
    else if p.refused && !sched.backfill then c.(closed := true)
    else if p.refused then
      var skipped := if Dominated(c.refused, p.ask) then c.skipped else c.skipped + 1;
      Count(c.refused + [p.ask], skipped, c.closed || skipped > sched.maxSkip)
    else c
  }

  function CountOf(s: State): Count {
    Count(s.refused, s.skipped, s.closed)
  }

  function PassOf(env: TickEnv, s: State, row: Row, later: seq<Row>, fate: Fate): Pass {
    Pass(RefusedHere(env, s, row, later, fate), LeftWaiting(env, s, row, later, fate), AskOf(env, row))
  }

  lemma {:induction false} RemoteKeepsCount(env: TickEnv, s: State, row: Row, node: NodeName, fate: Fate)
    ensures CountOf(RemoteAttempt(env, s, row, node, fate).0) == CountOf(s)
  {
  }

  lemma {:induction false} StartKeepsCount(env: TickEnv, s: State, row: Row, devices: seq<int>, fate: Fate)
    ensures CountOf(LocalStart(env, s, row, devices, fate)) == CountOf(s)
  {
  }

  lemma {:induction false} RefusalCount(env: TickEnv, s: State, row: Row)
    ensures CountOf(RefusedStep(env, s, row)) == NextCount(CountOf(s), Pass(true, false, AskOf(env, row)), env.sched)
  {
  }

  lemma {:induction false} PinnedCount(env: TickEnv, s: State, row: Row, fate: Fate)
    requires row.pinned.Some?
    ensures CountOf(PinnedStep(env, s, row, fate))
         == var placed := TryPinned(env, s, row, row.pinned.value, fate).1;
            NextCount(CountOf(s), Pass(false, !placed, AskOf(env, row)), env.sched)
  {
    RemoteKeepsCount(env, s, row, row.pinned.value, fate);
  }

  lemma {:induction false} ElsewhereCount(env: TickEnv, s: State, row: Row, later: seq<Row>, fate: Fate)
    ensures CountOf(ElsewhereStep(env, s, row, later, fate)) == CountOf(s)
  {
    var chosen := ChooseNode(env, s, row, later, false, fate);
    if chosen.Some? {
      RemoteKeepsCount(env, s, row, chosen.value, fate);
    }
  }

  lemma {:induction false} StayCount(env: TickEnv, s: State, row: Row, verdict: Verdict, offered: bool, fate: Fate)
    ensures CountOf(StayStep(env, s, row, verdict, offered, fate))
         == var passed := Pass(verdict.NotHere? && !offered, verdict.NotHere? && offered, AskOf(env, row));
            NextCount(CountOf(s), passed, env.sched)
  {
    if verdict.Here? {
      StartKeepsCount(env, s, row, verdict.devices, fate);
    } else if !offered {
      RefusalCount(env, s, row);
    }
  }

  lemma {:induction false} FreeCount(env: TickEnv, s: State, row: Row, later: seq<Row>, fate: Fate)
    requires row.pinned.None? && !s.closed
    ensures CountOf(FreeStep(env, Meanwhile(s, row, fate), row, later, fate))
         == NextCount(CountOf(s), PassOf(env, s, row, later, fate), env.sched)
  {
    var s1 := Meanwhile(s, row, fate);
    var verdict := Judge(env, s1, row);
    var chosen := ChooseNode(env, s1, row, later, verdict.Here?, fate);
    if chosen.Some? {
      RemoteKeepsCount(env, s1, row, chosen.value, fate);
      StayCount(env, RemoteAttempt(env, s1, row, chosen.value, fate).0, row, verdict, true, fate);
    } else {
      StayCount(env, s1, row, verdict, false, fate);
    }
  }

  lemma {:induction false} StepCounts(env: TickEnv, s: State, row: Row, later: seq<Row>, fate: Fate)
    ensures CountOf(Step(env, s, row, later, fate))
         == NextCount(CountOf(s), PassOf(env, s, row, later, fate), env.sched)
  {
    var s1 := Meanwhile(s, row, fate);
    if row.pinned.Some? {
      PinnedCount(env, s1, row, fate);
    } else if s1.closed {
      ElsewhereCount(env, s1, row, later, fate);
    } else {
      FreeCount(env, s, row, later, fate);
    }
  }

  // ---- a whole scan ------------------------------------------------------

  ghost predicate Counting(cs: seq<Count>, ps: seq<Pass>, sched: Scheduling) {
    && |cs| == |ps| + 1 && cs[0] == Count([], 0, false)
    && forall k :: 0 <= k < |ps| ==> CountedAt(cs, ps, sched, k)
  }

  ghost predicate CountedAt(cs: seq<Count>, ps: seq<Pass>, sched: Scheduling, k: nat)
    requires |cs| == |ps| + 1 && k < |ps|
  {
    cs[k + 1] == NextCount(cs[k], ps[k], sched)
  }

  /** The rows refused here among the first `k`, by what they asked for. */
  function AsksRefused(ps: seq<Pass>, k: nat): seq<Asked>
    requires k <= |ps|
  {
    if k == 0 then []
    else AsksRefused(ps, k - 1) + if ps[k - 1].refused && !ps[k - 1].left then [ps[k - 1].ask] else []
  }

  ghost predicate RefusedBefore(ps: seq<Pass>, k: nat, ask: Asked) {
    exists i :: 0 <= i < k <= |ps| && ps[i].refused && !ps[i].left && AsksAtLeast(ask, ps[i].ask)
  }

  /** Turn `k` uses up look-ahead: its job was left waiting for another machine, or refused here while no
      earlier job refused here had asked for as little. */
  ghost predicate UsesLookAhead(ps: seq<Pass>, k: nat, sched: Scheduling)
    requires k < |ps|
  {
    ps[k].left || (ps[k].refused && sched.backfill && !RefusedBefore(ps, k, ps[k].ask))
  }

  ghost function LookedPast(ps: seq<Pass>, k: nat, sched: Scheduling): nat
    requires k <= |ps|
  {
    if k == 0 then 0 else LookedPast(ps, k - 1, sched) + if UsesLookAhead(ps, k - 1, sched) then 1 else 0
  }

  /** With backfill, the list a scan keeps is what the jobs it has refused asked for, and nothing else. */
  lemma {:induction false} ListIsWhatWasRefused(cs: seq<Count>, ps: seq<Pass>, sched: Scheduling, k: nat)
    requires Counting(cs, ps, sched) && k <= |ps| && sched.backfill
    ensures cs[k].refused == AsksRefused(ps, k)
  {
    if k > 0 {
      ListIsWhatWasRefused(cs, ps, sched, k - 1);
      assert CountedAt(cs, ps, sched, k - 1);
    }
  }

  lemma {:induction false} ListedAsks(ps: seq<Pass>, k: nat, ask: Asked)
    requires k <= |ps|
    ensures Dominated(AsksRefused(ps, k), ask) <==> RefusedBefore(ps, k, ask)
  {
    if k > 0 {
      ListedAsks(ps, k - 1, ask);
      if RefusedBefore(ps, k, ask) {
        var i :| 0 <= i < k && ps[i].refused && !ps[i].left && AsksAtLeast(ask, ps[i].ask);
        if i < k - 1 {
          assert RefusedBefore(ps, k - 1, ask);
        } else {
          assert ps[i].ask in AsksRefused(ps, k);
        }
      }
    }
  }

  /** The count is exact: it is the number of earlier jobs that use up look-ahead. */
  lemma {:induction false} CountIsExact(cs: seq<Count>, ps: seq<Pass>, sched: Scheduling, k: nat)
    requires Counting(cs, ps, sched) && k <= |ps|
    ensures cs[k].skipped == LookedPast(ps, k, sched)
  {
    if k > 0 {
      CountIsExact(cs, ps, sched, k - 1);
      assert CountedAt(cs, ps, sched, k - 1);
      if sched.backfill {
        ListIsWhatWasRefused(cs, ps, sched, k - 1);
        ListedAsks(ps, k - 1, ps[k - 1].ask);
      }
    }
  }

  ghost predicate SomeRefused(ps: seq<Pass>, k: nat) {
    exists i :: 0 <= i < k <= |ps| && ps[i].refused && !ps[i].left
  }

  lemma {:induction false} ClosedExactly(cs: seq<Count>, ps: seq<Pass>, sched: Scheduling, k: nat)
    requires Counting(cs, ps, sched) && k <= |ps|
    ensures cs[k].closed <==> cs[k].skipped > sched.maxSkip || (!sched.backfill && SomeRefused(ps, k))
  {
    if k > 0 {
      ClosedExactly(cs, ps, sched, k - 1);
      assert CountedAt(cs, ps, sched, k - 1);
      if SomeRefused(ps, k - 1) {
        var i :| 0 <= i < k - 1 && ps[i].refused && !ps[i].left;
        assert ps[i].refused && !ps[i].left && i < k;
      }
    }
  }

  /** What a tick's turns amount to, turn by turn. */
  ghost predicate ArePasses(env: TickEnv, states: seq<State>, queue: seq<Row>, fates: seq<Fate>, ps: seq<Pass>) {
    && |states| == |queue| + 1 == |fates| + 1 && |ps| <= |queue|
    && forall k :: 0 <= k < |ps| ==> PassIs(env, states[k], queue[k], queue[k + 1..], fates[k], ps[k])
  }

  ghost predicate PassIs(env: TickEnv, s: State, row: Row, later: seq<Row>, fate: Fate, p: Pass) {
    p == PassOf(env, s, row, later, fate)
  }

  lemma {:induction false} PassesExist(env: TickEnv, states: seq<State>, queue: seq<Row>, fates: seq<Fate>, k: nat)
      returns (ps: seq<Pass>)
    requires |states| == |queue| + 1 == |fates| + 1 && k <= |queue|
    ensures |ps| == k && ArePasses(env, states, queue, fates, ps)
  {
    ps := [];
    if k > 0 {
      var before := PassesExist(env, states, queue, fates, k - 1);
      var p := PassOf(env, states[k - 1], queue[k - 1], queue[k..], fates[k - 1]);
      ps := before + [p];
      forall i | 0 <= i < k ensures PassIs(env, states[i], queue[i], queue[i + 1..], fates[i], ps[i]) {
        if i < k - 1 {
          assert PassIs(env, states[i], queue[i], queue[i + 1..], fates[i], before[i]);
        }
      }
    }
  }

  function Counts(states: seq<State>): (cs: seq<Count>)
    ensures |cs| == |states|
    ensures forall k :: 0 <= k < |cs| ==> cs[k] == CountOf(states[k])
  {
    seq(|states|, k requires 0 <= k < |states| => CountOf(states[k]))
  }

  /** Every tick counts so. */
  lemma {:induction false} TicksCount(env: TickEnv, s: State, queue: seq<Row>, fates: seq<Fate>, ps: seq<Pass>)
    requires |fates| == |queue| && CountOf(s) == Count([], 0, false)
    requires |ps| == |queue| && ArePasses(env, States(env, s, queue, fates), queue, fates, ps)
    ensures Counting(Counts(States(env, s, queue, fates)), ps, env.sched)
  {
    var states := States(env, s, queue, fates);
    forall k | 0 <= k < |ps| ensures CountedAt(Counts(states), ps, env.sched, k) {
      assert PassIs(env, states[k], queue[k], queue[k + 1..], fates[k], ps[k]);
      StepCounts(env, states[k], queue[k], queue[k + 1..], fates[k]);
    }
  }

  /** A job free to run anywhere comes to its turn without being judged here exactly when more jobs before it
      than the look-ahead allows were passed over, dominated ones not counted, or when backfill is off and one
      before it was refused. */
  lemma {:induction false} UnjudgedExactlyWhenLookedTooFar(
      env: TickEnv, s: State, queue: seq<Row>, fates: seq<Fate>, ps: seq<Pass>, k: nat)
    requires |fates| == |queue| && CountOf(s) == Count([], 0, false) && k <= |queue|
    requires |ps| == |queue| && ArePasses(env, States(env, s, queue, fates), queue, fates, ps)
    ensures Walk(env, s, queue, fates, k).closed
      <==> LookedPast(ps, k, env.sched) > env.sched.maxSkip || (!env.sched.backfill && SomeRefused(ps, k))
  {
    var states := States(env, s, queue, fates);
    TicksCount(env, s, queue, fates, ps);
    ClosedExactly(Counts(states), ps, env.sched, k);
    CountIsExact(Counts(states), ps, env.sched, k);
  }

  // ---- what the list promises --------------------------------------------

  lemma {:induction false} QuietIsNoTighter(env: TickEnv, s: State, s1: State)
    requires Quiet(env.cfg, s.w, s1.w) && s1.inFlight == s.inFlight && s1.held == s.held
    ensures Tighter(env, s1, s)
  {
    forall d: GpuDevice ensures Tightened(env, s1, s, d) {
      SameTermsSameOccupancy(s.w, s1.w, s.w.running, d.index);
    }
  }

  /** What an entry of that list stands for: from the turn its row was refused to the end of the tick, this
      machine refuses every job, queued or not, that asks for at least as much, but for the one kind of pair
      the comparison gets wrong. So leaving such jobs out of the count hides none that could start. */
  lemma {:induction false} RefusedRowsSpeakForOthers(
      env: TickEnv, s: State, queue: seq<Row>, fates: seq<Fate>, i: nat, k: nat, later: Row)
    requires WalkStart(s, queue, fates) && i < k <= |queue|
    requires env.node.GpuUsable() ==> DistinctIndices(env.node.gpu.value.devices)
    requires RefusedHere(env, States(env, s, queue, fates)[i], queue[i], queue[i + 1..], fates[i])
    requires AsksAtLeast(AskOf(env, later), AskOf(env, queue[i])) && !SharesWhereEarlierCould(queue[i], later)
    ensures Judge(env, States(env, s, queue, fates)[k], later).NotHere?
  {
    var states := States(env, s, queue, fates);
    WalkIsARunOfTurns(env, s, queue, fates);
    WalkStaysReady(env, s, queue, fates, i);
    var s1 := Meanwhile(states[i], queue[i], fates[i]);
    assert queue[i..][0] == queue[i];
    MeanwhileEffect(env.cfg, states[i], queue[i], fates[i]);
    QuietIsNoTighter(env, states[i], s1);
    TurnsTighten(env, states, queue, i, k);
    TighterTwice(env, s1, states[i], states[k]);
    RefusalCarries(env, s1, states[k], queue[i], later);
  }
}
