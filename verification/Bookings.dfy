/** What one turn writes down about other machines: a failed placement put off, a placement charged, a copy taken
    back. */
module Bookings {
  import opened Resources
  import opened QueueRows
  import opened World
  import opened Placement
  import opened Scan
  import opened TurnRule

  /** This machine is asked to take the job: the one it is pinned to, or the first that would. */
  ghost predicate Asks(env: TickEnv, s: State, row: Row, later: seq<Row>, fate: Fate, node: NodeName) {
    if row.pinned.Some? then
      && row.pinned.value == node && row.travels
      && node in env.nodes && IsDue(env, s, row.id, node) && HasRoomThere(env, s, row, node)
    else
      && LooksElsewhere(env, s, row, later, !s.closed && CanStartHere(env, s, row))
      && exists k :: 0 <= k < |env.nodes| && env.nodes[k] == node && FirstToTake(env, s, row, env.nodes, fate, k)
  }

  /** It could not be placed. The next attempt is put off for a minute, then twice as long each time, a quarter of an
      hour at most. */
  predicate PutOff(away: Elsewhere, away': Elsewhere, key: Key, now: real) {
    var twice := if key in away.failures then 2.0 * away.failures[key].delay else 0.0;
    var delay := if twice < 60.0 then 60.0 else if twice > 900.0 then 900.0 else twice;
    away' == away.(failures := away.failures[key := Retry(now + delay, delay)])
  }

  /** It was placed: what it asks for is added to what runs there, and earlier failures there are forgotten. */
  predicate Charged(away: Elsewhere, away': Elsewhere, key: Key, request: ResourceRequest) {
    && away'.failures == away.failures - {key} && away'.recalls == away.recalls
    && key.node in away.reports
    && var report := away.reports[key.node];
      away'.reports == away.reports[key.node := report.(running := report.running + [request])]
  }

  /** What is known of other machines after a turn: as before when none was asked; else what came of asking. A copy
      whose row can no longer be claimed is taken back. */
  ghost predicate BookedFor(env: TickEnv, s: State, s': State, row: Row, fate: Fate, node: NodeName) {
    var key := Key(row.id, node);
    if fate.shipped.None? then PutOff(s.away, s'.away, key, env.now)
    else if StillWaits(s, row.id) then Charged(s.away, s'.away, key, RequestFor(env.cfg, row))
    else s'.away == s.away.(recalls := s.away.recalls + [Recall(node, fate.shipped.value)])
  }

  ghost predicate Booked(env: TickEnv, s: State, s': State, row: Row, later: seq<Row>, fate: Fate) {
    && ((forall node :: !Asks(env, s, row, later, fate, node)) ==> s'.away == s.away)
    && forall node :: Asks(env, s, row, later, fate, node) ==> BookedFor(env, s, s', row, fate, node)
  }

  // ---- case by case ------------------------------------------------------

  lemma {:induction false} AttemptIsBooked(env: TickEnv, s: State, row: Row, node: NodeName, fate: Fate)
    requires row.travels && node in s.away.reports
    ensures BookedFor(env, s, RemoteAttempt(env, s, row, node, fate).0, row, fate, node)
  {
  }

  lemma {:induction false} FirstIsOne(env: TickEnv, s: State, row: Row, fate: Fate, j: nat, k: nat)
    requires j < |env.nodes| && k < |env.nodes|
    requires FirstToTake(env, s, row, env.nodes, fate, j) && FirstToTake(env, s, row, env.nodes, fate, k)
    ensures j == k
  {
  }

  /** No two machines are asked. */
  lemma {:induction false} OneIsAsked(
      env: TickEnv, s: State, row: Row, later: seq<Row>, fate: Fate, node: NodeName, other: NodeName)
    requires Asks(env, s, row, later, fate, node) && Asks(env, s, row, later, fate, other)
    ensures node == other
  {
    if row.pinned.None? {
      var j :| 0 <= j < |env.nodes| && env.nodes[j] == node && FirstToTake(env, s, row, env.nodes, fate, j);
      var k :| 0 <= k < |env.nodes| && env.nodes[k] == other && FirstToTake(env, s, row, env.nodes, fate, k);
      FirstIsOne(env, s, row, fate, j, k);
    }
  }

  lemma {:induction false} BookedOnce(
      env: TickEnv, s: State, s': State, row: Row, later: seq<Row>, fate: Fate, node: NodeName)
    requires Asks(env, s, row, later, fate, node) && BookedFor(env, s, s', row, fate, node)
    ensures Booked(env, s, s', row, later, fate)
  {
    forall other | Asks(env, s, row, later, fate, other) ensures other == node {
      OneIsAsked(env, s, row, later, fate, node, other);
    }
  }

  lemma {:induction false} PinnedIsBooked(env: TickEnv, s: State, row: Row, later: seq<Row>, fate: Fate)
    requires row.pinned.Some?
    ensures Booked(env, s, PinnedStep(env, s, row, fate), row, later, fate)
  {
    var node := row.pinned.value;
    WelcomeMeans(env, s, row, node);
    var tried := TryPinned(env, s, row, node, fate).0;
    PinnedKeepsAway(env, s, row, fate);
    if Asks(env, s, row, later, fate, node) {
      AttemptIsBooked(env, s, row, node, fate);
      BookedOnce(env, s, tried, row, later, fate, node);
    }
  }

  lemma {:induction false} PinnedKeepsAway(env: TickEnv, s: State, row: Row, fate: Fate)
    requires row.pinned.Some?
    ensures PinnedStep(env, s, row, fate).away == TryPinned(env, s, row, row.pinned.value, fate).0.away
    ensures !row.travels ==> TryPinned(env, s, row, row.pinned.value, fate).0.away == s.away
  {
  }

  lemma {:induction false} ChosenIsBooked(
      env: TickEnv, s: State, row: Row, later: seq<Row>, localOk: bool, fate: Fate)
    requires row.pinned.None? && localOk == (!s.closed && CanStartHere(env, s, row))
    ensures var chosen := ChooseNode(env, s, row, later, localOk, fate);
      var s' := if chosen.Some? then RemoteAttempt(env, s, row, chosen.value, fate).0 else s;
      Booked(env, s, s', row, later, fate)
  {
    ChoosesTheFirstThatWouldTake(env, s, row, later, localOk, fate);
    var chosen := ChooseNode(env, s, row, later, localOk, fate);
    if chosen.Some? {
      assert Asks(env, s, row, later, fate, chosen.value);
      AttemptIsBooked(env, s, row, chosen.value, fate);
      BookedOnce(env, s, RemoteAttempt(env, s, row, chosen.value, fate).0, row, later, fate, chosen.value);
    }
  }

  lemma {:induction false} StayingKeepsAway(
      env: TickEnv, s: State, row: Row, verdict: Verdict, offered: bool, fate: Fate)
    ensures StayStep(env, s, row, verdict, offered, fate).away == s.away
  {
  }

  lemma {:induction false} FreeIsBooked(env: TickEnv, s: State, row: Row, later: seq<Row>, fate: Fate)
    requires row.pinned.None? && !s.closed
    ensures Booked(env, s, FreeStep(env, s, row, later, fate), row, later, fate)
  {
    var verdict := Judge(env, s, row);
    StartsHereExactlyWhenItCan(env, s, row);
    ChosenIsBooked(env, s, row, later, verdict.Here?, fate);
    var chosen := ChooseNode(env, s, row, later, verdict.Here?, fate);
    var s' := if chosen.Some? then RemoteAttempt(env, s, row, chosen.value, fate).0 else s;
    StayingKeepsAway(env, s', row, verdict, chosen.Some?, fate);
  }

  /** Over a turn, from what is known once the reports that arrived meanwhile are in. */
  lemma {:induction false} TurnIsBooked(env: TickEnv, s: State, row: Row, later: seq<Row>, fate: Fate)
    ensures Booked(env, Meanwhile(s, row, fate), Step(env, s, row, later, fate), row, later, fate)
  {
    var s1 := Meanwhile(s, row, fate);
    if row.pinned.Some? {
      PinnedIsBooked(env, s1, row, later, fate);
    } else if s1.closed {
      ChosenIsBooked(env, s1, row, later, false, fate);
    } else {
      FreeIsBooked(env, s1, row, later, fate);
    }
  }
}
