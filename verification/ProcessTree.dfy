/** Attributing processes to jobs: everything descended from the given roots, on any parent map.

    Process ids are reused and readings race, so the map may hold cycles and may name parents that
    are gone. */
module ProcessTree {

  datatype Pid = Pid(number: int)

  /** `path` runs from a root to `pid`, each step from a process to one it is recorded as parent of. */
  ghost predicate Path(parents: map<Pid, Pid>, roots: set<Pid>, path: seq<Pid>, pid: Pid) {
    && path != [] && path[0] in roots && path[|path| - 1] == pid
    && Linked(parents, path)
  }

  ghost predicate Linked(parents: map<Pid, Pid>, path: seq<Pid>) {
    forall i :: 0 < i < |path| ==> StepDown(parents, path, i)
  }

  predicate StepDown(parents: map<Pid, Pid>, path: seq<Pid>, i: nat)
    requires 0 < i < |path|
  {
    path[i] in parents && parents[path[i]] == path[i - 1]
  }

  ghost predicate Descends(parents: map<Pid, Pid>, roots: set<Pid>, pid: Pid) {
    exists path :: Path(parents, roots, path, pid)
  }

  ghost predicate Closed(parents: map<Pid, Pid>, pids: set<Pid>) {
    forall pid :: pid in parents && parents[pid] in pids ==> pid in pids
  }

  lemma {:induction false} RootsDescend(parents: map<Pid, Pid>, roots: set<Pid>, pid: Pid)
    requires pid in roots
    ensures Descends(parents, roots, pid)
  {
    assert Path(parents, roots, [pid], pid);
  }

  lemma {:induction false} ChildrenDescend(parents: map<Pid, Pid>, roots: set<Pid>, pid: Pid, child: Pid)
    requires Descends(parents, roots, pid) && child in parents && parents[child] == pid
    ensures Descends(parents, roots, child)
  {
    var path :| Path(parents, roots, path, pid);
    var longer := path + [child];
    forall i | 0 < i < |longer| ensures StepDown(parents, longer, i) {
      if i < |path| {
        assert StepDown(parents, path, i);
      }
    }
    assert Path(parents, roots, longer, child);
  }

  lemma {:induction false} PathStaysInside(
      parents: map<Pid, Pid>, roots: set<Pid>, pids: set<Pid>, path: seq<Pid>, k: nat)
    requires roots <= pids && Closed(parents, pids)
    requires k < |path| && path[0] in roots && Linked(parents, path)
    ensures path[k] in pids
  {
    if k > 0 {
      PathStaysInside(parents, roots, pids, path, k - 1);
      assert StepDown(parents, path, k);
    }
  }

  /** Any set holding the roots and closed under children holds every descendant. */
  lemma {:induction false} DescendantsAreLeast(parents: map<Pid, Pid>, roots: set<Pid>, pids: set<Pid>, pid: Pid)
    requires roots <= pids && Closed(parents, pids) && Descends(parents, roots, pid)
    ensures pid in pids
  {
    var path :| Path(parents, roots, path, pid);
    PathStaysInside(parents, roots, pids, path, |path| - 1);
  }

  lemma {:induction false} SomeMember(pids: set<Pid>)
    requires pids != {}
    ensures exists pid :: pid in pids
  {
    assert (forall pid :: pid !in pids) ==> pids == {};
  }

  /** Holds the roots and every child of its members, and nothing that could be left out. */
  ghost predicate LeastClosed(parents: map<Pid, Pid>, roots: set<Pid>, seen: set<Pid>) {
    && roots <= seen && Closed(parents, seen)
    && forall pids: set<Pid> :: roots <= pids && Closed(parents, pids) ==> seen <= pids
  }

  // ---- the children index ------------------------------------------------

  function ChildrenOf(children: map<Pid, seq<Pid>>, pid: Pid): seq<Pid> {
    if pid in children then children[pid] else []
  }

  ghost predicate Indexes(children: map<Pid, seq<Pid>>, parents: map<Pid, Pid>) {
    forall pid, child :: child in ChildrenOf(children, pid) <==> child in parents && parents[child] == pid
  }

  /** `child` is recorded under `pid` and is not among the entries still to be read. */
  predicate ChildOf(parents: map<Pid, Pid>, left: set<Pid>, pid: Pid, child: Pid) {
    child in parents && child !in left && parents[child] == pid
  }

  method IndexChildren(parents: map<Pid, Pid>) returns (children: map<Pid, seq<Pid>>)
    ensures Indexes(children, parents)
  {
    children := map[];
    var left := parents.Keys;
    while left != {}
      invariant left <= parents.Keys
      invariant forall pid, child :: child in ChildrenOf(children, pid) <==> ChildOf(parents, left, pid, child)
      decreases |left|
    {
      SomeMember(left);
      var pid :| pid in left;
      left := left - {pid};
      ghost var was, left0 := children, left + {pid};
      children := children[parents[pid] := ChildrenOf(children, parents[pid]) + [pid]];
      forall p, child ensures child in ChildrenOf(children, p) <==> ChildOf(parents, left, p, child) {
        assert child in ChildrenOf(was, p) <==> ChildOf(parents, left0, p, child);
      }
    }
  }

  method Listed(pids: set<Pid>) returns (list: seq<Pid>)
    ensures forall pid :: pid in list <==> pid in pids
  {
    list := [];
    var left := pids;
    while left != {}
      invariant left <= pids
      invariant forall pid :: pid in list <==> pid in pids - left
      decreases |left|
    {
      SomeMember(left);
      var pid :| pid in left;
      left := left - {pid};
      list := list + [pid];
    }
  }

  // ---- the walk ----------------------------------------------------------

  /** Every process that is not waiting on the stack has all its children already. */
  ghost predicate Explored(parents: map<Pid, Pid>, seen: set<Pid>, stack: seq<Pid>) {
    forall child :: child in parents && parents[child] in seen && parents[child] !in stack ==> child in seen
  }

  ghost predicate Justified(parents: map<Pid, Pid>, roots: set<Pid>, seen: set<Pid>) {
    forall pid :: pid in seen ==> Descends(parents, roots, pid)
  }

  /** Processes the walk has yet to see. */
  ghost function Unseen(parents: map<Pid, Pid>, roots: set<Pid>, seen: set<Pid>): nat {
    |roots + parents.Keys - seen|
  }

  lemma {:induction false} SeeingMoreLeavesLess(
      parents: map<Pid, Pid>, roots: set<Pid>, seen: set<Pid>, seen': set<Pid>)
    requires seen <= seen' <= roots + parents.Keys
    ensures Unseen(parents, roots, seen') <= Unseen(parents, roots, seen)
    ensures seen' != seen ==> Unseen(parents, roots, seen') < Unseen(parents, roots, seen)
  {
    var before, after := roots + parents.Keys - seen, roots + parents.Keys - seen';
    assert before == after + (seen' - seen);
    if seen' != seen {
      assert seen' - seen != {} && |seen' - seen| > 0;
    }
  }

  /** Add what has not been seen, and remember it as still to be explored. */
  method PushUnseen(list: seq<Pid>, seen: set<Pid>, stack: seq<Pid>) returns (seen': set<Pid>, stack': seq<Pid>)
    ensures forall pid :: pid in seen' <==> pid in seen || pid in list
    ensures forall pid :: pid in stack' <==> pid in stack || (pid in list && pid !in seen)
    ensures seen' == seen ==> stack' == stack
  {
    seen', stack' := seen, stack;
    for i := 0 to |list|
      invariant forall pid :: pid in seen' <==> pid in seen || pid in list[..i]
      invariant forall pid :: pid in stack' <==> pid in stack || (pid in list[..i] && pid !in seen)
      invariant seen' == seen ==> stack' == stack
    {
      assert list[..i + 1] == list[..i] + [list[i]];
      if list[i] !in seen' {
        seen' := seen' + {list[i]};
        stack' := stack' + [list[i]];
      }
    }
    assert list[..|list|] == list;
  }

  /** What the walk keeps: everything found descends from the roots, and nothing explored is missing
      a child. */
  ghost predicate Walking(parents: map<Pid, Pid>, roots: set<Pid>, seen: set<Pid>, stack: seq<Pid>) {
    && roots <= seen <= roots + parents.Keys
    && (forall pid :: pid in stack ==> pid in seen)
    && Explored(parents, seen, stack) && Justified(parents, roots, seen)
  }

  lemma {:induction false} WalkBegins(parents: map<Pid, Pid>, roots: set<Pid>, stack: seq<Pid>)
    requires forall pid :: pid in stack <==> pid in roots
    ensures Walking(parents, roots, roots, stack)
  {
    forall pid | pid in roots ensures Descends(parents, roots, pid) {
      RootsDescend(parents, roots, pid);
    }
  }

  /** Exploring the top of the stack. */
  lemma {:induction false} WalkContinues(
      parents: map<Pid, Pid>, roots: set<Pid>, seen: set<Pid>, below: seq<Pid>, current: Pid,
      seen': set<Pid>, stack': seq<Pid>, list: seq<Pid>)
    requires Walking(parents, roots, seen, below + [current])
    requires forall child :: child in list <==> child in parents && parents[child] == current
    requires forall pid :: pid in seen' <==> pid in seen || pid in list
    requires forall pid :: pid in stack' <==> pid in below || (pid in list && pid !in seen)
    ensures Walking(parents, roots, seen', stack')
    ensures seen <= seen'
  {
    assert current in below + [current];
    forall pid | pid in seen' ensures Descends(parents, roots, pid) {
      if pid !in seen {
        ChildrenDescend(parents, roots, current, pid);
      }
    }
    forall child | child in parents && parents[child] in seen' && parents[child] !in stack' ensures child in seen' {
      if parents[child] != current {
        assert parents[child] !in below + [current];
      }
    }
  }

  lemma {:induction false} WalkEnds(parents: map<Pid, Pid>, roots: set<Pid>, seen: set<Pid>)
    requires Walking(parents, roots, seen, [])
    ensures LeastClosed(parents, roots, seen)
    ensures forall pid :: pid in seen <==> Descends(parents, roots, pid)
  {
    assert Closed(parents, seen);
    forall pids: set<Pid> | roots <= pids && Closed(parents, pids) ensures seen <= pids {
      forall pid | pid in seen ensures pid in pids {
        DescendantsAreLeast(parents, roots, pids, pid);
      }
    }
    forall pid | Descends(parents, roots, pid) ensures pid in seen {
      DescendantsAreLeast(parents, roots, seen, pid);
    }
  }

  /** Take the top of the stack and push its unseen children: something new is seen, or the stack is shorter. */
  method ExploreTop(
      parents: map<Pid, Pid>, ghost roots: set<Pid>, children: map<Pid, seq<Pid>>, seen: set<Pid>, stack: seq<Pid>)
    returns (seen': set<Pid>, stack': seq<Pid>)
    requires Indexes(children, parents) && Walking(parents, roots, seen, stack) && stack != []
    ensures Walking(parents, roots, seen', stack')
    ensures Unseen(parents, roots, seen') < Unseen(parents, roots, seen) || (seen' == seen && |stack'| < |stack|)
  {
    var current, below := stack[|stack| - 1], stack[..|stack| - 1];
    assert stack == below + [current];
    var list := ChildrenOf(children, current);
    seen', stack' := PushUnseen(list, seen, below);
    WalkContinues(parents, roots, seen, below, current, seen', stack', list);
    SeeingMoreLeavesLess(parents, roots, seen, seen');
  }

  /** Terminates on any parent map, and returns exactly the processes that descend from the roots: the
      least set that holds the roots and every child of its members. */
  method DescendantsOf(parents: map<Pid, Pid>, roots: set<Pid>) returns (seen: set<Pid>)
    ensures forall pid :: pid in seen <==> Descends(parents, roots, pid)
    ensures LeastClosed(parents, roots, seen)
  {
    if roots == {} {
      WalkBegins(parents, roots, []);
      WalkEnds(parents, roots, {});
      return {};
    }
    var children := IndexChildren(parents);
    seen := roots;
    var stack := Listed(roots);
    WalkBegins(parents, roots, stack);
    while stack != []
      invariant Walking(parents, roots, seen, stack)
      decreases Unseen(parents, roots, seen), |stack|
    {
      seen, stack := ExploreTop(parents, roots, children, seen, stack);
    }
    WalkEnds(parents, roots, seen);
  }
}
