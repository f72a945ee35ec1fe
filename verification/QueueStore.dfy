/** The queue table as every process changes it: one class, each method one transaction.

    A conditional update returns whether it found the row in the state it asked for. */
module QueueStore {
  import opened Wrappers
  import opened QueueRows
  import opened Scan
  import opened Upkeep
  import opened Preemption

  // ---- what the transactions do, on values -------------------------------

  function LastPosition(rows: seq<Row>): int {
    if rows == [] then 0 else LastPositionFrom(rows[1..], rows[0].position)
  }

  function LastPositionFrom(rows: seq<Row>, best: int): int {
    if rows == [] then best else MaxInt(rows[0].position, LastPositionFrom(rows[1..], best))
  }

  function LeastRank(rows: seq<Row>): int
    requires rows != []
  {
    if |rows| == 1 then rows[0].rank
    else
      var rest := LeastRank(rows[1..]);
      if rows[0].rank < rest then rows[0].rank else rest
  }

  /** A new row: waiting, unplaced, unflagged, behind every position handed out so far. */
  function Fresh(rows: seq<Row>, draft: Row, id: JobId): Row {
    draft.(id := id, state := Queued, position := LastPosition(rows) + 1,
           exit := None, pid := None, creation := None, startedAt := None,
           cancelRequested := false, preemptRequested := false, preemptBy := None,
           node := None, remoteId := None)
  }

  function FrontRank(rows: seq<Row>): int {
    var queued := InState(rows, Queued);
    var least := if queued == [] then 100 else LeastRank(queued);
    if least < 0 then least else 0
  }

  function PromotedRow(rows: seq<Row>, row: Row): Row {
    row.(rank := FrontRank(rows), position := FrontPosition(rows) - 1)
  }

  lemma {:induction false} LastIsLast(rows: seq<Row>, best: int)
    ensures best <= LastPositionFrom(rows, best)
    ensures forall k :: 0 <= k < |rows| ==> rows[k].position <= LastPositionFrom(rows, best)
  {
    if rows != [] {
      LastIsLast(rows[1..], best);
      forall k | 1 <= k < |rows| ensures rows[k].position <= LastPositionFrom(rows, best) {
        assert rows[1..][k - 1] == rows[k];
      }
    }
  }

  /** First come, first served within a priority: a new job is dispatched after every other of its rank. */
  lemma {:induction false} EnqueuedGoesLastInItsTier(rows: seq<Row>, draft: Row, id: JobId, other: Row)
    requires other in rows && other.rank == draft.rank
    ensures Before(other, Fresh(rows, draft, id))
    ensures other.position < Fresh(rows, draft, id).position
  {
    var k :| 0 <= k < |rows| && rows[k] == other;
    LastIsLast(rows[1..], rows[0].position);
    if k > 0 {
      assert rows[1..][k - 1] == other;
    }
  }

  /** It waits, wants what the draft wants, and carries no trace of an earlier run. */
  predicate WaitsAsDrafted(row: Row, draft: Row) {
    && row.state == Queued && !row.cancelRequested && !row.preemptRequested
    && row.exit == None && row.pid == None && row.creation == None && row.startedAt == None
    && row.preemptBy == None && row.node == None && row.remoteId == None
    && row.rank == draft.rank && row.ram == draft.ram && row.vram == draft.vram && row.cpus == draft.cpus
    && row.gpus == draft.gpus && row.mode == draft.mode && row.preemptible == draft.preemptible
    && row.pinned == draft.pinned && row.travels == draft.travels && row.argvOk == draft.argvOk
  }

  lemma {:induction false} LeastRankIsLeast(rows: seq<Row>, k: nat)
    requires k < |rows|
    ensures LeastRank(rows) <= rows[k].rank
  {
    if |rows| > 1 && k > 0 {
      LeastRankIsLeast(rows[1..], k - 1);
    }
  }

  lemma {:induction false} LeastRankIsSomeones(rows: seq<Row>)
    requires rows != []
    ensures exists r :: r in rows && r.rank == LeastRank(rows)
  {
    if |rows| > 1 {
      LeastRankIsSomeones(rows[1..]);
      assert rows[0] in rows;
    } else {
      assert rows[0] in rows;
    }
  }

  /** A promoted job is dispatched before everything else that waits, whatever its priority. */
  lemma {:induction false} PromotedGoesFirst(rows: seq<Row>, row: Row, other: Row)
    requires other in rows && other.state == Queued
    ensures Before(PromotedRow(rows, row), other)
    ensures var moved := PromotedRow(rows, row);
      && moved == row.(rank := moved.rank, position := moved.position)
      && moved.rank <= other.rank && moved.position < other.position
      && (moved.rank == 0 || (moved.rank < 0 && exists r :: r in rows && r.state == Queued && r.rank == moved.rank))
  {
    InStateMembers(rows, Queued, other);
    var queued := InState(rows, Queued);
    var k :| 0 <= k < |queued| && queued[k] == other;
    LeastIsLeast(queued, k);
    LeastRankIsLeast(queued, k);
    LeastRankIsSomeones(queued);
    var least :| least in queued && least.rank == LeastRank(queued);
    InStateMembers(rows, Queued, least);
  }

  // ---- in-place updates --------------------------------------------------

  lemma {:induction false} MarkedAt(rows: seq<Row>, victims: set<JobId>, waiter: Option<JobId>, k: nat)
    requires k < |rows|
    ensures |Marked(rows, victims, waiter)| == |rows|
    ensures SameButFlag(rows[k], Marked(rows, victims, waiter)[k])
  {
    if k > 0 {
      MarkedAt(rows[1..], victims, waiter, k - 1);
    } else if |rows| > 1 {
      MarkedAt(rows[1..], victims, waiter, 0);
    }
  }

  lemma {:induction false} MarkingKeepsOrder(rows: seq<Row>, victims: set<JobId>, waiter: Option<JobId>)
    requires Ordered(rows)
    ensures Ordered(Marked(rows, victims, waiter))
  {
    var after := Marked(rows, victims, waiter);
    if rows != [] {
      MarkedAt(rows, victims, waiter, 0);
    }
    forall i, j | 0 <= i < j < |after| ensures Before(after[i], after[j]) {
      MarkedAt(rows, victims, waiter, i);
      MarkedAt(rows, victims, waiter, j);
    }
  }

  lemma {:induction false} MarkingOneMore(rows: seq<Row>, victims: set<JobId>, waiter: Option<JobId>, id: JobId)
    ensures Marked(Marked(rows, victims, waiter), {id}, waiter) == Marked(rows, victims + {id}, waiter)
  {
    if rows != [] {
      MarkingOneMore(rows[1..], victims, waiter, id);
    }
  }

  lemma {:induction false} MarkingNothing(rows: seq<Row>, waiter: Option<JobId>)
    ensures Marked(rows, {}, waiter) == rows
  {
    if rows != [] {
      MarkingNothing(rows[1..], waiter);
    }
  }

  lemma {:induction false} WithoutInserted(row: Row, rows: seq<Row>)
    requires row.id !in Ids(rows)
    ensures Without(Insert(row, rows), row.id) == rows
  {
    WithoutAbsent(rows, row.id);
    if rows != [] && !Before(row, rows[0]) {
      WithoutInserted(row, rows[1..]);
    }
  }

  /** Two rewrites of one row in a row are the second. */
  lemma {:induction false} LastWriteWins(rows: seq<Row>, first: Row, second: Row)
    requires first.id == second.id
    ensures Put(Put(rows, first), second) == Put(rows, second)
  {
    WithoutFacts(rows, first.id, first.id);
    WithoutInserted(first, Without(rows, first.id));
  }

  // ---- the class ---------------------------------------------------------

  ghost predicate IdsUpTo(rows: seq<Row>, last: JobId) {
    forall id :: id in Ids(rows) ==> id <= last
  }

  class QueueStore {
    var rows: seq<Row>
    var lastId: JobId

    /** One row per id, in dispatch order, and no id handed out that is still to come. */
    ghost predicate Valid()
      reads this
    {
      Distinct(rows) && Ordered(rows) && IdsUpTo(rows, lastId)
    }

    constructor ()
      ensures Valid() && rows == []
    {
      rows := [];
      lastId := 0;
    }

    method Write(row: Row)
      requires Valid() && row.id <= lastId
      modifies this`rows
      ensures Valid() && rows == Put(old(rows), row)
    {
      PutFacts(rows, row, row.id);
      PutKeepsOrder(rows, row);
      rows := Put(rows, row);
    }

    method Enqueue(draft: Row) returns (id: JobId)
      requires Valid()
      modifies this
      ensures Valid() && id !in Ids(old(rows)) && id > old(lastId)
      ensures rows == Put(old(rows), Fresh(old(rows), draft, id))
      ensures Find(rows, id).Some? && WaitsAsDrafted(Find(rows, id).value, draft)
    {
      lastId := lastId + 1;
      id := lastId;
      PutFacts(rows, Fresh(rows, draft, id), id);
      Write(Fresh(rows, draft, id));
    }

    /** Atomically QUEUED to RUNNING. Succeeds for at most one caller: it leaves the row unclaimable. */
    method ClaimForStart(id: JobId, now: real) returns (ok: bool)
      requires Valid()
      modifies this`rows
      ensures Valid()
      ensures var was := Find(old(rows), id);
        && (ok <==> was.Some? && was.value.state == Queued)
        && rows == if ok then Put(old(rows), was.value.(state := Running, startedAt := Some(now))) else old(rows)
      ensures !(Find(rows, id).Some? && Find(rows, id).value.state == Queued)
    {
      var was := Find(rows, id);
      FindMeansListed(rows, id);
      ok := was.Some? && was.value.state == Queued;
      if ok {
        PutFacts(rows, was.value.(state := Running, startedAt := Some(now)), id);
        Write(was.value.(state := Running, startedAt := Some(now)));
      }
    }

    /** The same, recording in the same statement where the job runs. */
    method ClaimForRemoteStart(id: JobId, node: NodeName, remoteId: int, now: real) returns (ok: bool)
      requires Valid()
      modifies this`rows
      ensures Valid()
      ensures var was := Find(old(rows), id);
        && (ok <==> was.Some? && was.value.state == Queued)
        && rows == if ok
           then Put(old(rows), was.value.(
             state := Running, startedAt := Some(now), node := Some(node), remoteId := Some(remoteId)))
           else old(rows)
      ensures !(Find(rows, id).Some? && Find(rows, id).value.state == Queued)
    {
      var was := Find(rows, id);
      FindMeansListed(rows, id);
      ok := was.Some? && was.value.state == Queued;
      if ok {
        var row := was.value.(state := Running, startedAt := Some(now), node := Some(node), remoteId := Some(remoteId));
        PutFacts(rows, row, id);
        Write(row);
      }
    }

    method RecordProcess(id: JobId, pid: int, creation: Option<int>)
      requires Valid()
      modifies this`rows
      ensures Valid()
      ensures var was := Find(old(rows), id);
        rows == if was.Some? then Put(old(rows), was.value.(pid := Some(pid), creation := creation)) else old(rows)
    {
      var was := Find(rows, id);
      FindMeansListed(rows, id);
      if was.Some? {
        Write(was.value.(pid := Some(pid), creation := creation));
      }
    }

    /** Unconditional: whatever state the row was in. */
    method Finish(id: JobId, exit: Option<int>)
      requires Valid()
      modifies this`rows
      ensures Valid()
      ensures var was := Find(old(rows), id);
        rows == if was.Some? then Put(old(rows), FinishedRow(was.value, exit)) else old(rows)
    {
      var was := Find(rows, id);
      FindMeansListed(rows, id);
      if was.Some? {
        Write(FinishedRow(was.value, exit));
      }
    }

    method RemoveQueued(id: JobId) returns (ok: bool)
      requires Valid()
      modifies this`rows
      ensures Valid()
      ensures var was := Find(old(rows), id);
        && (ok <==> was.Some? && was.value.state == Queued)
        && rows == if ok then Put(old(rows), was.value.(state := Removed)) else old(rows)
    {
      var was := Find(rows, id);
      FindMeansListed(rows, id);
      ok := was.Some? && was.value.state == Queued;
      if ok {
        Write(was.value.(state := Removed));
      }
    }

    method RequestCancel(id: JobId) returns (ok: bool)
      requires Valid()
      modifies this`rows
      ensures Valid()
      ensures var was := Find(old(rows), id);
        && (ok <==> was.Some? && was.value.state in {Queued, Running})
        && rows == if ok then Put(old(rows), was.value.(cancelRequested := true)) else old(rows)
    {
      var was := Find(rows, id);
      FindMeansListed(rows, id);
      ok := was.Some? && was.value.state in {Queued, Running};
      if ok {
        Write(was.value.(cancelRequested := true));
      }
    }

    /** Set once: a running row already asked keeps the first asker. */
    method RequestPreempt(id: JobId, asker: Option<JobId>) returns (ok: bool)
      requires Valid()
      modifies this`rows
      ensures Valid()
      ensures var was := Find(old(rows), id);
        ok <==> was.Some? && was.value.state == Running && !was.value.preemptRequested
      ensures rows == Marked(old(rows), {id}, asker)
    {
      var was := Find(rows, id);
      ok := was.Some? && was.value.state == Running && !was.value.preemptRequested;
      MarkingKeepsIds(rows, {id}, asker);
      MarkingKeepsOrder(rows, {id}, asker);
      rows := Marked(rows, {id}, asker);
    }

    method Requeue(id: JobId) returns (ok: bool)
      requires Valid()
      modifies this`rows
      ensures Valid()
      ensures var was := Find(old(rows), id);
        && (ok <==> was.Some?)
        && rows == if ok then Put(old(rows), RequeuedRow(old(rows), was.value)) else old(rows)
    {
      var was := Find(rows, id);
      FindMeansListed(rows, id);
      ok := was.Some?;
      if ok {
        Write(RequeuedRow(rows, was.value));
      }
    }

    method Promote(id: JobId) returns (ok: bool)
      requires Valid()
      modifies this`rows
      ensures Valid()
      ensures var was := Find(old(rows), id);
        && (ok <==> was.Some? && was.value.state == Queued)
        && rows == if ok then Put(old(rows), PromotedRow(old(rows), was.value)) else old(rows)
    {
      var was := Find(rows, id);
      FindMeansListed(rows, id);
      ok := was.Some? && was.value.state == Queued;
      if ok {
        Write(PromotedRow(rows, was.value));
      }
    }
  }
}
