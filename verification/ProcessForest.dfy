/**
 The process table as a forest: `scripts/dev-preflight-utils.ts`.

 Whether a command line belongs to the dev server is a parameter, `dev`.
 */
module ProcessForest {
  import opened Wrappers

  datatype ProcessInfo = ProcessInfo(pid: int, ppid: int, args: string)

  type Table = seq<ProcessInfo>

  /** `byPid`: of several rows with one pid the last one stands. */
  function Lookup(t: Table, pid: int): (r: Option<ProcessInfo>)
    ensures r.Some? ==> r.value in t && r.value.pid == pid
    ensures r.None? ==> forall p :: p in t ==> p.pid != pid
  {
    if t == [] then None
    else if t[|t| - 1].pid == pid then Some(t[|t| - 1])
    else Lookup(t[..|t| - 1], pid)
  }

  /** `childrenByPid`: every row that names this parent, in table order. */
  function Children(t: Table, pid: int): (r: seq<ProcessInfo>)
    ensures forall c :: c in r <==> c in t && c.ppid == pid
  {
    if t == [] then []
    else Children(t[..|t| - 1], pid) + (if t[|t| - 1].ppid == pid then [t[|t| - 1]] else [])
  }

  datatype Graph = Graph(byPid: map<int, ProcessInfo>, childrenByPid: map<int, seq<ProcessInfo>>)

  function ByPid(g: Graph, pid: int): Option<ProcessInfo> {
    if pid in g.byPid then Some(g.byPid[pid]) else None
  }

  function ChildrenByPid(g: Graph, pid: int): seq<ProcessInfo> {
    if pid in g.childrenByPid then g.childrenByPid[pid] else []
  }

  ghost predicate Represents(g: Graph, t: Table) {
    forall pid :: ByPid(g, pid) == Lookup(t, pid) && ChildrenByPid(g, pid) == Children(t, pid)
  }

  method BuildProcessGraph(processes: Table) returns (g: Graph)
    ensures Represents(g, processes)
  {
    var byPid: map<int, ProcessInfo> := map[];
    var childrenByPid: map<int, seq<ProcessInfo>> := map[];
    for i := 0 to |processes|
      invariant Represents(Graph(byPid, childrenByPid), processes[..i])
    {
      var process := processes[i];
      var children := if process.ppid in childrenByPid then childrenByPid[process.ppid] else [];
      assert processes[..i + 1] == processes[..i] + [process];
      RowAdded(byPid, childrenByPid, processes[..i], process);
      byPid := byPid[process.pid := process];
      childrenByPid := childrenByPid[process.ppid := children + [process]];
    }
    assert processes[..|processes|] == processes;
    g := Graph(byPid, childrenByPid);
  }

  lemma RowAdded(byPid: map<int, ProcessInfo>, childrenByPid: map<int, seq<ProcessInfo>>, t: Table, p: ProcessInfo)
    requires Represents(Graph(byPid, childrenByPid), t)
    ensures var children := if p.ppid in childrenByPid then childrenByPid[p.ppid] else [];
      Represents(Graph(byPid[p.pid := p], childrenByPid[p.ppid := children + [p]]), t + [p])
  {
    var g := Graph(byPid, childrenByPid);
    var u := t + [p];
    assert u[..|u| - 1] == t;
    var children := ChildrenByPid(g, p.ppid);
    var h := Graph(byPid[p.pid := p], childrenByPid[p.ppid := children + [p]]);
    forall pid ensures ByPid(h, pid) == Lookup(u, pid) && ChildrenByPid(h, pid) == Children(u, pid) {
      assert ByPid(g, pid) == Lookup(t, pid) && ChildrenByPid(g, pid) == Children(t, pid);
      assert ChildrenByPid(g, p.ppid) == Children(t, p.ppid);
    }
  }

  // ---- paths down the table --------------------------------------------------------------------

  predicate IsChild(t: Table, parent: int, child: int) {
    exists p :: p in t && p.ppid == parent && p.pid == child
  }

  /** From the first pid down to the last, a row of the table for each step. */
  predicate IsPath(t: Table, path: seq<int>) {
    path != [] && forall i :: 0 <= i < |path| - 1 ==> IsChild(t, path[i], path[i + 1])
  }

  ghost predicate Reaches(t: Table, from: int, to: int) {
    exists path :: IsPath(t, path) && path[0] == from && path[|path| - 1] == to
  }

  ghost predicate Acyclic(t: Table) {
    forall path :: IsPath(t, path) && |path| > 1 ==> path[0] != path[|path| - 1]
  }

  predicate UniquePids(t: Table) {
    forall i, j :: 0 <= i < j < |t| ==> t[i].pid != t[j].pid
  }

  lemma ReachesItself(t: Table, pid: int)
    ensures Reaches(t, pid, pid)
  {
    assert IsPath(t, [pid]);
  }

  lemma PathsJoin(t: Table, p: seq<int>, q: seq<int>)
    requires IsPath(t, p) && IsPath(t, q) && p[|p| - 1] == q[0]
    ensures IsPath(t, p + q[1..]) && (p + q[1..])[0] == p[0] && (p + q[1..])[|p + q[1..]| - 1] == q[|q| - 1]
  {
    var r := p + q[1..];
    forall i | 0 <= i < |r| - 1 ensures IsChild(t, r[i], r[i + 1]) {
      if i < |p| - 1 {
        assert r[i] == p[i] && r[i + 1] == p[i + 1];
      } else {
        var k := i - (|p| - 1);
        assert r[i] == q[k] && r[i + 1] == q[k + 1];
      }
    }
  }

  lemma ReachesThrough(t: Table, a: int, b: int, c: int)
    requires Reaches(t, a, b) && Reaches(t, b, c)
    ensures Reaches(t, a, c)
  {
    var p :| IsPath(t, p) && p[0] == a && p[|p| - 1] == b;
    var q :| IsPath(t, q) && q[0] == b && q[|q| - 1] == c;
    PathsJoin(t, p, q);
  }

  lemma ReachesChild(t: Table, a: int, b: int, c: int)
    requires Reaches(t, a, b) && IsChild(t, b, c)
    ensures Reaches(t, a, c)
  {
    assert IsPath(t, [b, c]) && [b, c][0] == b && [b, c][|[b, c]| - 1] == c;
    ReachesThrough(t, a, b, c);
  }

  /** No process is below one of its own children. */
  lemma NoWayBack(t: Table, a: int, b: int)
    requires Acyclic(t) && Reaches(t, a, b)
    ensures !IsChild(t, b, a)
  {
    if IsChild(t, b, a) {
      var p :| IsPath(t, p) && p[0] == a && p[|p| - 1] == b;
      assert IsPath(t, [b, a]);
      PathsJoin(t, p, [b, a]);
    }
  }

  // ---- the walk down ----------------------------------------------------------------------------------

  /** What a visit has seen, and the pids it finished, in order. */
  datatype Walk = Walk(seen: set<int>, order: seq<int>)

  ghost function Pids(t: Table): set<int> {
    set p | p in t :: p.pid
  }

  ghost function VisitOne(t: Table, pid: int, seen: set<int>, all: set<int>): (r: Walk)
    requires seen <= all && pid in all && Pids(t) <= all
    ensures seen <= r.seen <= all
    decreases |all - seen|, 0
  {
    if pid in seen then Walk(seen, [])
    else
      MarkingShrinks(all, seen, pid);
      var w := VisitAll(t, Children(t, pid), seen + {pid}, all);
      Walk(w.seen, w.order + [pid])
  }

  ghost function VisitAll(t: Table, list: seq<ProcessInfo>, seen: set<int>, all: set<int>): (r: Walk)
    requires seen <= all && Pids(t) <= all && forall p :: p in list ==> p in t
    ensures seen <= r.seen <= all
    decreases |all - seen|, |list|
  {
    if list == [] then Walk(seen, [])
    else
      assert list[0].pid in Pids(t);
      var w := VisitOne(t, list[0].pid, seen, all);
      Fits(all - w.seen, all - seen);
      var v := VisitAll(t, list[1..], w.seen, all);
      Walk(v.seen, w.order + v.order)
  }

  lemma Shrinks<T>(a: set<T>, b: set<T>)
    requires a < b
    ensures |a| < |b|
  {
    var x :| x in b && x !in a;
    Fits(a, b - {x});
  }

  lemma {:induction false} Fits<T>(a: set<T>, b: set<T>)
    requires a <= b
    ensures |a| <= |b|
    decreases a
  {
    if a != {} {
      var x :| x in a;
      Fits(a - {x}, b - {x});
    }
  }

  /** The rows of the finished pids that are in the table. */
  function Known(t: Table, order: seq<int>): seq<ProcessInfo> {
    if order == [] then []
    else (if Lookup(t, order[0]).Some? then [Lookup(t, order[0]).value] else []) + Known(t, order[1..])
  }

  lemma {:induction false} KnownConcat(t: Table, a: seq<int>, b: seq<int>)
    ensures Known(t, a + b) == Known(t, a) + Known(t, b)
  {
    if a == [] {
      assert a + b == b;
    } else {
      assert (a + b)[1..] == a[1..] + b;
      KnownConcat(t, a[1..], b);
    }
  }

  ghost function Order(t: Table, root: int): seq<int> {
    VisitOne(t, root, {}, Pids(t) + {root}).order
  }

  /** The tree under a root, as the walk collects it. */
  ghost function Tree(t: Table, root: int): seq<ProcessInfo> {
    Known(t, Order(t, root))
  }

  /** `visited` and `ordered` of one call, shared by its recursion. */
  class TreeCollector {
    var visited: set<int>
    var ordered: seq<ProcessInfo>

    constructor ()
      ensures visited == {} && ordered == []
    {
      visited, ordered := {}, [];
    }

    method Visit(pid: int, g: Graph, ghost t: Table, ghost all: set<int>)
      requires Represents(g, t) && visited <= all && pid in all && Pids(t) <= all
      modifies this
      ensures var w := VisitOne(t, pid, old(visited), all);
        visited == w.seen && ordered == old(ordered) + Known(t, w.order)
      decreases |all - visited|, 0
    {
      if pid in visited {
        return;
      }
      MarkingShrinks(all, visited, pid);
      visited := visited + {pid};
      ghost var w := VisitAll(t, Children(t, pid), visited, all);
      VisitEach(ChildrenByPid(g, pid), g, t, all);
      var process := ByPid(g, pid);
      KnownConcat(t, w.order, [pid]);
      KnownOne(t, pid);
      Regroup(old(ordered), Known(t, w.order), Known(t, [pid]));
      if process.Some? {
        ordered := ordered + [process.value];
      }
    }

    method VisitEach(children: seq<ProcessInfo>, g: Graph, ghost t: Table, ghost all: set<int>)
      requires Represents(g, t) && visited <= all && Pids(t) <= all && forall p :: p in children ==> p in t
      modifies this
      ensures var w := VisitAll(t, children, old(visited), all);
        visited == w.seen && ordered == old(ordered) + Known(t, w.order)
      decreases |all - visited|, 1
    {
      ghost var whole := VisitAll(t, children, visited, all);
      ghost var rows := [];
      for i := 0 to |children|
        invariant old(visited) <= visited <= all
        invariant ordered == old(ordered) + rows
        invariant Remains(t, children, i, visited, all, whole, rows)
      {
        OneVisited(t, children, i, old(visited), visited, all, whole, rows);
        ghost var more := Known(t, VisitOne(t, children[i].pid, visited, all).order);
        Visit(children[i].pid, g, t, all);
        Regroup(old(ordered), rows, more);
        rows := rows + more;
      }
      AllVisited(t, children, visited, all, whole, rows);
    }
  }

  lemma Regroup<T>(a: seq<T>, b: seq<T>, c: seq<T>)
    ensures a + b + c == a + (b + c)
  {
  }

  /** What is left of a visit after `i` children, `rows` collected. */
  ghost predicate Remains(t: Table, list: seq<ProcessInfo>, i: nat, seen: set<int>, all: set<int>,
                          whole: Walk, rows: seq<ProcessInfo>) {
    && seen <= all && Pids(t) <= all && (forall p :: p in list ==> p in t) && i <= |list|
    && whole.seen == VisitAll(t, list[i..], seen, all).seen
    && Known(t, whole.order) == rows + Known(t, VisitAll(t, list[i..], seen, all).order)
  }

  lemma OneVisited(t: Table, list: seq<ProcessInfo>, i: nat, start: set<int>, seen: set<int>, all: set<int>,
                   whole: Walk, rows: seq<ProcessInfo>)
    requires start <= seen && i < |list| && Remains(t, list, i, seen, all, whole, rows)
    ensures list[i].pid in all && |all - seen| <= |all - start|
    ensures var w := VisitOne(t, list[i].pid, seen, all);
      Remains(t, list, i + 1, w.seen, all, whole, rows + Known(t, w.order))
  {
    VisitAllStep(t, list, i, seen, all);
    Fits(all - seen, all - start);
    var w := VisitOne(t, list[i].pid, seen, all);
    KnownConcat(t, w.order, VisitAll(t, list[i + 1..], w.seen, all).order);
  }

  lemma AllVisited(t: Table, list: seq<ProcessInfo>, seen: set<int>, all: set<int>, whole: Walk,
                   rows: seq<ProcessInfo>)
    requires Remains(t, list, |list|, seen, all, whole, rows)
    ensures whole.seen == seen && Known(t, whole.order) == rows
  {
    assert list[|list|..] == [];
  }

  lemma MarkingShrinks(all: set<int>, seen: set<int>, pid: int)
    requires pid in all && pid !in seen
    ensures |all - (seen + {pid})| < |all - seen|
  {
    assert pid in all - seen;
    Shrinks(all - (seen + {pid}), all - seen);
  }

  lemma KnownOne(t: Table, pid: int)
    ensures Known(t, [pid]) == if Lookup(t, pid).Some? then [Lookup(t, pid).value] else []
  {
    assert Known(t, [pid][1..]) == [];
  }

  lemma VisitAllStep(t: Table, list: seq<ProcessInfo>, i: nat, seen: set<int>, all: set<int>)
    requires seen <= all && Pids(t) <= all && (forall p :: p in list ==> p in t) && i < |list|
    ensures list[i] in t && list[i].pid in all
    ensures var w := VisitOne(t, list[i].pid, seen, all);
      var rest := VisitAll(t, list[i + 1..], w.seen, all);
      VisitAll(t, list[i..], seen, all) == Walk(rest.seen, w.order + rest.order)
  {
    assert list[i].pid in Pids(t);
    assert list[i..][1..] == list[i + 1..];
  }

  method CollectProcessTree(rootPid: int, g: Graph, ghost t: Table) returns (ordered: seq<ProcessInfo>)
    requires Represents(g, t)
    ensures ordered == Tree(t, rootPid)
  {
    var collector := new TreeCollector();
    collector.Visit(rootPid, g, t, Pids(t) + {rootPid});
    ordered := collector.ordered;
  }
}
