/** The queue table: its rows, the order it is read in, and the ledger its running rows add up to.

    The table is kept in dispatch order (priority rank, position, id), the order every listing
    asks for. Rewriting a row takes it out and puts it back where its key belongs. */
module QueueRows {
  import opened Wrappers
  import opened Resources

  type JobId = int
  type NodeName = string

  datatype BackendState = Queued | Running | Finished | Removed

  /** Only the word "shared" opts in; every other mode is treated as exclusive. */
  datatype GpuMode = Exclusive | Shared

  datatype Row = Row(
    id: JobId, rank: int, position: int,
    ram: Option<Mib>, vram: Option<Mib>, cpus: Option<nat>, gpus: nat, mode: GpuMode,
    state: BackendState, exit: Option<int>, pid: Option<int>, creation: Option<int>, startedAt: Option<real>,
    cancelRequested: bool, preemptible: bool, preemptRequested: bool, preemptBy: Option<JobId>,
    pinned: Option<NodeName>, node: Option<NodeName>, remoteId: Option<int>,
    travels: bool, argvOk: bool)

  /** What a row asks for, undeclared figures replaced by the configured defaults. */
  function RequestFor(cfg: Limits, row: Row): ResourceRequest {
    ResourceRequest(
      row.ram.GetOr<Mib>(cfg.defaultRam), row.vram.GetOr<Mib>(cfg.defaultVram),
      row.cpus.GetOr<nat>(cfg.defaultCpus), row.gpus)
  }

  /** What a row declared, with no default: device sharing is judged on this figure alone. */
  function DeclaredVram(row: Row): Mib {
    row.vram.GetOr<Mib>(0.0)
  }

  // ---- the table ---------------------------------------------------------

  predicate Before(a: Row, b: Row) {
    a.rank < b.rank
    || (a.rank == b.rank && a.position < b.position)
    || (a.rank == b.rank && a.position == b.position && a.id < b.id)
  }

  function Ids(rows: seq<Row>): set<JobId> {
    if rows == [] then {} else {rows[0].id} + Ids(rows[1..])
  }

  predicate Distinct(rows: seq<Row>) {
    rows == [] || (rows[0].id !in Ids(rows[1..]) && Distinct(rows[1..]))
  }

  function Find(rows: seq<Row>, id: JobId): Option<Row> {
    if rows == [] then None
    else if rows[0].id == id then Some(rows[0])
    else Find(rows[1..], id)
  }

  function Without(rows: seq<Row>, id: JobId): seq<Row> {
    if rows == [] then []
    else if rows[0].id == id then Without(rows[1..], id)
    else [rows[0]] + Without(rows[1..], id)
  }

  function Insert(row: Row, rows: seq<Row>): (r: seq<Row>)
    ensures |r| == |rows| + 1
  {
    if rows == [] || Before(row, rows[0]) then [row] + rows
    else [rows[0]] + Insert(row, rows[1..])
  }

  function Put(rows: seq<Row>, row: Row): seq<Row> {
    Insert(row, Without(rows, row.id))
  }

  /** Rows in one state, in table order. */
  function InState(rows: seq<Row>, state: BackendState): seq<Row> {
    if rows == [] then []
    else (if rows[0].state == state then [rows[0]] else []) + InState(rows[1..], state)
  }

  lemma {:induction false} FindMeansListed(rows: seq<Row>, id: JobId)
    ensures Find(rows, id).Some? <==> id in Ids(rows)
    ensures Find(rows, id).Some? ==> Find(rows, id).value.id == id && Find(rows, id).value in rows
  {
    if rows != [] && rows[0].id != id {
      FindMeansListed(rows[1..], id);
    }
  }

  lemma {:induction false} ListedMeansFound(rows: seq<Row>, row: Row)
    requires Distinct(rows) && row in rows
    ensures row.id in Ids(rows) && Find(rows, row.id) == Some(row)
  {
    if rows[0] != row {
      ListedMeansFound(rows[1..], row);
    }
  }

  lemma {:induction false} WithoutFacts(rows: seq<Row>, id: JobId, other: JobId)
    ensures Ids(Without(rows, id)) == Ids(rows) - {id}
    ensures Distinct(rows) ==> Distinct(Without(rows, id))
    ensures Find(Without(rows, id), other) == if other == id then None else Find(rows, other)
  {
    if rows != [] {
      WithoutFacts(rows[1..], id, other);
    }
  }

  lemma {:induction false} InsertFacts(row: Row, rows: seq<Row>, other: JobId)
    requires row.id !in Ids(rows)
    ensures Ids(Insert(row, rows)) == Ids(rows) + {row.id}
    ensures Distinct(rows) ==> Distinct(Insert(row, rows))
    ensures Find(Insert(row, rows), other) == if other == row.id then Some(row) else Find(rows, other)
  {
    if rows != [] && !Before(row, rows[0]) {
      InsertFacts(row, rows[1..], other);
    }
  }

  /** Rewriting one row changes the answer for that id and no other. */
  lemma {:induction false} PutFacts(rows: seq<Row>, row: Row, other: JobId)
    ensures Ids(Put(rows, row)) == Ids(rows) + {row.id}
    ensures Distinct(rows) ==> Distinct(Put(rows, row))
    ensures Find(Put(rows, row), other) == if other == row.id then Some(row) else Find(rows, other)
  {
    WithoutFacts(rows, row.id, other);
    InsertFacts(row, Without(rows, row.id), other);
  }

  // ---- the table stays in dispatch order ---------------------------------

  predicate Ordered(rows: seq<Row>) {
    forall i, j :: 0 <= i < j < |rows| ==> Before(rows[i], rows[j])
  }

  lemma {:induction false} WithoutIsSublist(rows: seq<Row>, id: JobId)
    requires Ordered(rows)
    ensures Ordered(Without(rows, id))
    ensures forall r :: r in Without(rows, id) ==> r in rows
  {
    if rows != [] {
      WithoutIsSublist(rows[1..], id);
      var rest := Without(rows[1..], id);
      forall j | 0 <= j < |rest| ensures Before(rows[0], rest[j]) {
        assert rest[j] in rest;
        assert rest[j] in rows[1..];
      }
    }
  }

  lemma {:induction false} InsertMembers(row: Row, rows: seq<Row>)
    ensures forall r :: r in Insert(row, rows) <==> r == row || r in rows
  {
    if rows != [] && !Before(row, rows[0]) {
      InsertMembers(row, rows[1..]);
    }
  }

  lemma {:induction false} InsertKeepsOrder(row: Row, rows: seq<Row>)
    requires Ordered(rows) && row.id !in Ids(rows)
    ensures Ordered(Insert(row, rows))
  {
    if rows != [] && !Before(row, rows[0]) {
      InsertKeepsOrder(row, rows[1..]);
      InsertMembers(row, rows[1..]);
      var rest := Insert(row, rows[1..]);
      forall j | 0 <= j < |rest| ensures Before(rows[0], rest[j]) {
        assert rest[j] in rest;
      }
    }
  }

  lemma {:induction false} PutKeepsOrder(rows: seq<Row>, row: Row)
    requires Ordered(rows)
    ensures Ordered(Put(rows, row))
  {
    WithoutIsSublist(rows, row.id);
    WithoutFacts(rows, row.id, row.id);
    InsertKeepsOrder(row, Without(rows, row.id));
  }

  // ---- the ledger --------------------------------------------------------

  /** A row holds a reservation while it is running and this dispatcher is following it. */
  predicate Holds(row: Row, active: set<JobId>) {
    row.state == Running && row.id in active
  }

  function ActiveRequests(cfg: Limits, rows: seq<Row>, active: set<JobId>): seq<ResourceRequest> {
    if rows == [] then []
    else (if Holds(rows[0], active) then [RequestFor(cfg, rows[0])] else [])
         + ActiveRequests(cfg, rows[1..], active)
  }

  function Reserved(cfg: Limits, rows: seq<Row>, active: set<JobId>): ResourceRequest {
    SumReservations(ActiveRequests(cfg, rows, active))
  }

  function Weight(cfg: Limits, row: Row, active: set<JobId>): ResourceRequest {
    if Holds(row, active) then RequestFor(cfg, row) else Nothing()
  }

  lemma {:induction false} ReservedFirst(cfg: Limits, rows: seq<Row>, active: set<JobId>)
    requires rows != []
    ensures Reserved(cfg, rows, active) == Plus(Weight(cfg, rows[0], active), Reserved(cfg, rows[1..], active))
  {
    if Holds(rows[0], active) {
      var rest := ActiveRequests(cfg, rows[1..], active);
      assert ([RequestFor(cfg, rows[0])] + rest)[1..] == rest;
    } else {
      assert ActiveRequests(cfg, rows, active) == ActiveRequests(cfg, rows[1..], active);
    }
  }

  lemma {:induction false} PlusSwap(a: ResourceRequest, b: ResourceRequest, c: ResourceRequest)
    ensures Plus(a, Plus(b, c)) == Plus(b, Plus(a, c))
  {
  }

  lemma {:induction false} ReservedWithout(cfg: Limits, rows: seq<Row>, active: set<JobId>, row: Row)
    requires Distinct(rows) && Find(rows, row.id) == Some(row)
    ensures Reserved(cfg, rows, active)
         == Plus(Weight(cfg, row, active), Reserved(cfg, Without(rows, row.id), active))
  {
    ReservedFirst(cfg, rows, active);
    if rows[0].id == row.id {
      WithoutAbsent(rows[1..], row.id);
    } else {
      var rest := Without(rows[1..], row.id);
      assert Without(rows, row.id)[1..] == rest;
      ReservedFirst(cfg, Without(rows, row.id), active);
      ReservedWithout(cfg, rows[1..], active, row);
      PlusSwap(Weight(cfg, rows[0], active), Weight(cfg, row, active), Reserved(cfg, rest, active));
    }
  }

  lemma {:induction false} WithoutAbsent(rows: seq<Row>, id: JobId)
    requires id !in Ids(rows)
    ensures Without(rows, id) == rows
  {
    if rows != [] {
      WithoutAbsent(rows[1..], id);
    }
  }

  lemma {:induction false} ReservedInsert(cfg: Limits, rows: seq<Row>, active: set<JobId>, row: Row)
    ensures Reserved(cfg, Insert(row, rows), active)
         == Plus(Weight(cfg, row, active), Reserved(cfg, rows, active))
  {
    ReservedFirst(cfg, Insert(row, rows), active);
    if rows == [] || Before(row, rows[0]) {
      assert Insert(row, rows)[1..] == rows;
    } else {
      assert Insert(row, rows)[1..] == Insert(row, rows[1..]);
      ReservedInsert(cfg, rows[1..], active, row);
      ReservedFirst(cfg, rows, active);
      PlusSwap(Weight(cfg, rows[0], active), Weight(cfg, row, active), Reserved(cfg, rows[1..], active));
    }
  }

  lemma {:induction false} ReservedSameActive(cfg: Limits, rows: seq<Row>, active: set<JobId>, active': set<JobId>)
    requires forall id :: id in Ids(rows) ==> (id in active <==> id in active')
    ensures ActiveRequests(cfg, rows, active) == ActiveRequests(cfg, rows, active')
  {
    if rows != [] {
      ReservedSameActive(cfg, rows[1..], active, active');
    }
  }

  /** The ledger's bookkeeping law. When one row is rewritten and only its own membership of the
      active set may change, the ledger moves by exactly the difference of that row's two weights. */
  lemma {:induction false} LedgerMovesByOneRow(
      cfg: Limits, rows: seq<Row>, was: Row, row: Row, active: set<JobId>, active': set<JobId>)
    requires Distinct(rows) && Find(rows, row.id) == Some(was)
    requires active - {row.id} == active' - {row.id}
    ensures Plus(Weight(cfg, was, active), Reserved(cfg, Put(rows, row), active'))
         == Plus(Weight(cfg, row, active'), Reserved(cfg, rows, active))
  {
    FindMeansListed(rows, row.id);
    var rest := Without(rows, row.id);
    WithoutFacts(rows, row.id, row.id);
    forall id | id in Ids(rest) ensures id in active <==> id in active' {
      assert id in active - {row.id} <==> id in active' - {row.id};
    }
    ReservedWithout(cfg, rows, active, was);
    ReservedInsert(cfg, rest, active', row);
    ReservedSameActive(cfg, rest, active, active');
    PlusSwap(Weight(cfg, was, active), Weight(cfg, row, active'), Reserved(cfg, rest, active));
  }
}
