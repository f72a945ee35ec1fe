/** Tables and books of two or three entries, written out: what the examples elsewhere are built from. */
module SmallTables {
  import opened Wrappers
  import opened QueueRows
  import opened Devices

  lemma {:induction false} TwoRows(a: Row, b: Row, id: JobId)
    ensures Find([a, b], id) == if a.id == id then Some(a) else if b.id == id then Some(b) else None
    ensures Ids([a, b]) == {a.id, b.id}
    ensures a.id != b.id ==> Distinct([a, b])
  {
    assert [a, b][1..] == [b] && [b][1..] == [];
    assert Find([b], id) == if b.id == id then Some(b) else None;
    assert Ids([b]) == {b.id};
  }

  lemma {:induction false} ThreeRows(a: Row, b: Row, c: Row, id: JobId)
    ensures Find([a, b, c], id)
         == if a.id == id then Some(a) else if b.id == id then Some(b) else if c.id == id then Some(c) else None
    ensures Ids([a, b, c]) == {a.id, b.id, c.id}
    ensures a.id != b.id && a.id != c.id && b.id != c.id ==> Distinct([a, b, c])
  {
    assert [a, b, c][1..] == [b, c];
    TwoRows(b, c, id);
  }

  lemma {:induction false} OneJob(x: RunningJob)
    ensures JobIds([x]) == {x.id} && [x][..0] == []
  {
    assert [x][1..] == [];
  }

  lemma {:induction false} TwoJobs(x: RunningJob, y: RunningJob)
    ensures JobIds([x, y]) == {x.id, y.id}
  {
    assert [x, y][1..] == [y];
    OneJob(y);
  }
}
