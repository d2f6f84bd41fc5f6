/**
 What the walk down collects: exactly the known processes under the root, each once, children first.
 */
module ProcessTrees {
  import opened Wrappers
  import opened ProcessForest

  // ---- one visit -------------------------------------------------------------------------------

  ghost predicate ClosedFor(t: Table, w: Walk) {
    forall x, c :: x in w.order && IsChild(t, x, c) ==> c in w.seen
  }

  /** The pids a visit adds are those it finishes, each once. */
  ghost predicate AddsOnce(seen: set<int>, w: Walk) {
    && w.seen == seen + (set x | x in w.order)
    && (forall i, j :: 0 <= i < j < |w.order| ==> w.order[i] != w.order[j])
    && (forall x :: x in w.order ==> x !in seen)
  }

  lemma AddsOnceJoins(seen: set<int>, w: Walk, v: Walk)
    requires AddsOnce(seen, w) && AddsOnce(w.seen, v)
    ensures AddsOnce(seen, Walk(v.seen, w.order + v.order))
  {
    var order := w.order + v.order;
    forall i, j | 0 <= i < j < |order| ensures order[i] != order[j] {
      if i < |w.order| <= j {
        assert order[i] in w.order && order[j] in v.order;
      }
    }
    assert forall x :: x in order <==> x in w.order || x in v.order;
  }

  lemma {:induction false} VisitOneAdds(t: Table, pid: int, seen: set<int>, all: set<int>)
    requires seen <= all && pid in all && Pids(t) <= all
    ensures var w := VisitOne(t, pid, seen, all);
      pid in w.seen && AddsOnce(seen, w) && ClosedFor(t, w)
    decreases |all - seen|, 0
  {
    if pid !in seen {
      MarkingShrinks(all, seen, pid);
      var w := VisitAll(t, Children(t, pid), seen + {pid}, all);
      VisitAllAdds(t, Children(t, pid), seen + {pid}, all);
      LastAdds(t, pid, seen, w);
    }
  }

  /** A pid finished behind all of its children. */
  lemma LastAdds(t: Table, pid: int, seen: set<int>, w: Walk)
    requires pid !in seen && AddsOnce(seen + {pid}, w) && ClosedFor(t, w)
    requires forall p :: p in Children(t, pid) ==> p.pid in w.seen
    ensures var v := Walk(w.seen, w.order + [pid]); pid in v.seen && AddsOnce(seen, v) && ClosedFor(t, v)
  {
    var order := w.order + [pid];
    assert pid !in w.order;
    assert forall x :: x in order <==> x in w.order || x == pid;
    forall x, c | x in order && IsChild(t, x, c) ensures c in w.seen {
      if x == pid {
        var p :| p in t && p.ppid == pid && p.pid == c;
        assert p in Children(t, pid);
      }
    }
  }

  lemma {:induction false} VisitAllAdds(t: Table, list: seq<ProcessInfo>, seen: set<int>, all: set<int>)
    requires seen <= all && Pids(t) <= all && forall p :: p in list ==> p in t
    ensures var w := VisitAll(t, list, seen, all);
      AddsOnce(seen, w) && ClosedFor(t, w) && forall p :: p in list ==> p.pid in w.seen
    decreases |all - seen|, |list|
  {
    if list != [] {
      assert list[0].pid in Pids(t);
      var w := VisitOne(t, list[0].pid, seen, all);
      Fits(all - w.seen, all - seen);
      VisitOneAdds(t, list[0].pid, seen, all);
      VisitAllAdds(t, list[1..], w.seen, all);
      AddsOnceJoins(seen, w, VisitAll(t, list[1..], w.seen, all));
    }
  }

  /** Whatever a visit finishes is below its start. */
  lemma {:induction false} VisitOneIsBelow(t: Table, root: int, pid: int, seen: set<int>, all: set<int>)
    requires seen <= all && pid in all && Pids(t) <= all && Reaches(t, root, pid)
    ensures forall x :: x in VisitOne(t, pid, seen, all).order ==> Reaches(t, root, x)
    decreases |all - seen|, 0
  {
    if pid !in seen {
      MarkingShrinks(all, seen, pid);
      forall p | p in Children(t, pid) ensures Reaches(t, root, p.pid) {
        assert IsChild(t, pid, p.pid);
        ReachesChild(t, root, pid, p.pid);
      }
      VisitAllIsBelow(t, root, Children(t, pid), seen + {pid}, all);
    }
  }

  lemma {:induction false} VisitAllIsBelow(t: Table, root: int, list: seq<ProcessInfo>, seen: set<int>, all: set<int>)
    requires seen <= all && Pids(t) <= all && forall p :: p in list ==> p in t && Reaches(t, root, p.pid)
    ensures forall x :: x in VisitAll(t, list, seen, all).order ==> Reaches(t, root, x)
    decreases |all - seen|, |list|
  {
    if list != [] {
      assert list[0].pid in Pids(t);
      var w := VisitOne(t, list[0].pid, seen, all);
      Fits(all - w.seen, all - seen);
      VisitOneIsBelow(t, root, list[0].pid, seen, all);
      VisitAllIsBelow(t, root, list[1..], w.seen, all);
    }
  }

  /** A child comes before its parent, unless it was seen before. */
  ghost predicate ChildrenFirst(t: Table, seen: set<int>, order: seq<int>) {
    forall i, c {:trigger IsChild(t, order[i], c)} ::
      0 <= i < |order| && IsChild(t, order[i], c) ==> c in seen || c in order[..i]
  }

  lemma ChildrenFirstJoins(t: Table, seen: set<int>, w: Walk, order: seq<int>)
    requires AddsOnce(seen, w) && ChildrenFirst(t, seen, w.order) && ChildrenFirst(t, w.seen, order)
    ensures ChildrenFirst(t, seen, w.order + order)
  {
    var all := w.order + order;
    forall i, c | 0 <= i < |all| && IsChild(t, all[i], c) ensures c in seen || c in all[..i] {
      if i < |w.order| {
        assert all[..i] == w.order[..i];
      } else {
        assert all[i] == order[i - |w.order|];
        assert all[..i] == w.order + order[..i - |w.order|];
      }
    }
  }

  lemma {:induction false} VisitOneChildrenFirst(t: Table, pid: int, seen: set<int>, all: set<int>)
    requires seen <= all && pid in all && Pids(t) <= all && Acyclic(t)
    ensures ChildrenFirst(t, seen, VisitOne(t, pid, seen, all).order)
    decreases |all - seen|, 0
  {
    if pid !in seen {
      MarkingShrinks(all, seen, pid);
      VisitAllChildrenFirst(t, Children(t, pid), seen + {pid}, all);
      VisitAllAdds(t, Children(t, pid), seen + {pid}, all);
      var w := VisitAll(t, Children(t, pid), seen + {pid}, all);
      VisitOneIsBelowItself(t, pid, seen, all);
      PidLast(t, pid, seen, w);
    }
  }

  lemma VisitOneIsBelowItself(t: Table, pid: int, seen: set<int>, all: set<int>)
    requires seen <= all && pid in all && Pids(t) <= all && Acyclic(t)
    ensures forall x :: x in VisitOne(t, pid, seen, all).order ==> !IsChild(t, x, pid)
  {
    ReachesItself(t, pid);
    VisitOneIsBelow(t, pid, pid, seen, all);
    forall x | x in VisitOne(t, pid, seen, all).order ensures !IsChild(t, x, pid) {
      NoWayBack(t, pid, x);
    }
  }

  lemma PidLast(t: Table, pid: int, seen: set<int>, w: Walk)
    requires AddsOnce(seen + {pid}, w) && ChildrenFirst(t, seen + {pid}, w.order)
    requires forall p :: p in Children(t, pid) ==> p.pid in w.seen
    requires forall x :: x in w.order + [pid] ==> !IsChild(t, x, pid)
    ensures ChildrenFirst(t, seen, w.order + [pid])
  {
    var order := w.order + [pid];
    forall i, c | 0 <= i < |order| && IsChild(t, order[i], c) ensures c in seen || c in order[..i] {
      assert order[i] in order && c != pid;
      if i < |w.order| {
        assert order[..i] == w.order[..i] && order[i] == w.order[i];
        assert c in seen + {pid} || c in w.order[..i];
      } else {
        assert order[..i] == w.order && order[i] == pid;
        var p :| p in t && p.ppid == pid && p.pid == c;
        assert p in Children(t, pid) && p.pid in w.seen;
        assert c in (set x | x in w.order) || c in seen;
      }
    }
  }

  lemma {:induction false} VisitAllChildrenFirst(t: Table, list: seq<ProcessInfo>, seen: set<int>, all: set<int>)
    requires seen <= all && Pids(t) <= all && Acyclic(t) && forall p :: p in list ==> p in t
    ensures ChildrenFirst(t, seen, VisitAll(t, list, seen, all).order)
    decreases |all - seen|, |list|
  {
    if list != [] {
      assert list[0].pid in Pids(t);
      var w := VisitOne(t, list[0].pid, seen, all);
      Fits(all - w.seen, all - seen);
      VisitOneAdds(t, list[0].pid, seen, all);
      VisitOneChildrenFirst(t, list[0].pid, seen, all);
      VisitAllChildrenFirst(t, list[1..], w.seen, all);
      ChildrenFirstJoins(t, seen, w, VisitAll(t, list[1..], w.seen, all).order);
    }
  }

  // ---- the whole tree ----------------------------------------------------------------------------------

  lemma {:induction false} ClosedUnderPaths(t: Table, done: set<int>, path: seq<int>)
    requires IsPath(t, path) && path[0] in done
    requires forall x, c :: x in done && IsChild(t, x, c) ==> c in done
    ensures path[|path| - 1] in done
  {
    if |path| > 1 {
      var init := path[..|path| - 1];
      assert IsPath(t, init);
      ClosedUnderPaths(t, done, init);
      assert IsChild(t, path[|path| - 2], path[|path| - 1]);
    }
  }

  /** On every table, cyclic ones too, the walk finishes exactly the pids below the root, each once. */
  lemma OrderIsReachable(t: Table, root: int)
    ensures forall x :: x in Order(t, root) <==> Reaches(t, root, x)
    ensures forall i, j :: 0 <= i < j < |Order(t, root)| ==> Order(t, root)[i] != Order(t, root)[j]
  {
    var all := Pids(t) + {root};
    var w := VisitOne(t, root, {}, all);
    VisitOneAdds(t, root, {}, all);
    ReachesItself(t, root);
    VisitOneIsBelow(t, root, root, {}, all);
    forall x | Reaches(t, root, x) ensures x in w.order {
      var path :| IsPath(t, path) && path[0] == root && path[|path| - 1] == x;
      ClosedUnderPaths(t, w.seen, path);
    }
  }

  lemma {:induction false} KnownRows(t: Table, order: seq<int>)
    ensures forall p :: p in Known(t, order) <==> p.pid in order && Lookup(t, p.pid) == Some(p)
    ensures |Known(t, order)| <= |order|
  {
    if order != [] {
      KnownRows(t, order[1..]);
    }
  }

  lemma {:induction false} KnownOnce(t: Table, order: seq<int>)
    requires forall i, j :: 0 <= i < j < |order| ==> order[i] != order[j]
    ensures forall i, j :: 0 <= i < j < |Known(t, order)| ==> Known(t, order)[i].pid != Known(t, order)[j].pid
  {
    if order != [] {
      KnownOnce(t, order[1..]);
      KnownRows(t, order[1..]);
      assert forall k :: 0 <= k < |Known(t, order[1..])| ==> Known(t, order[1..])[k] in Known(t, order[1..]);
    }
  }

  /** The collected tree: one row for each known process below the root. */
  lemma TreeIsReachable(t: Table, root: int)
    ensures forall p :: p in Tree(t, root) <==> Reaches(t, root, p.pid) && Lookup(t, p.pid) == Some(p)
    ensures forall i, j :: 0 <= i < j < |Tree(t, root)| ==> Tree(t, root)[i].pid != Tree(t, root)[j].pid
  {
    OrderIsReachable(t, root);
    KnownRows(t, Order(t, root));
    KnownOnce(t, Order(t, root));
  }

  /** The rows of a prefix of the order are a prefix of the rows. */
  lemma {:induction false} KnownSplits(t: Table, order: seq<int>, k: nat)
    requires k < |Known(t, order)|
    ensures exists i :: 0 <= i < |order| && order[i] == Known(t, order)[k].pid && Known(t, order[..i]) == Known(t, order)[..k]
  {
    if Lookup(t, order[0]).None? {
      KnownSplits(t, order[1..], k);
      var i :| 0 <= i < |order[1..]| && order[1..][i] == Known(t, order)[k].pid && Known(t, order[1..][..i]) == Known(t, order)[..k];
      assert order[..i + 1] == [order[0]] + order[1..][..i];
      assert order[i + 1] == Known(t, order)[k].pid;
    } else if k == 0 {
      assert order[0] == Known(t, order)[0].pid && Known(t, order[..0]) == Known(t, order)[..0];
    } else {
      KnownSplits(t, order[1..], k - 1);
      var rest := Known(t, order[1..]);
      var i :| 0 <= i < |order[1..]| && order[1..][i] == rest[k - 1].pid && Known(t, order[1..][..i]) == rest[..k - 1];
      assert order[..i + 1] == [order[0]] + order[1..][..i];
      assert order[..i + 1][1..] == order[1..][..i];
      assert order[i + 1] == Known(t, order)[k].pid;
      assert Known(t, order)[..k] == [Known(t, order)[0]] + rest[..k - 1];
    }
  }

  lemma KnownHas(t: Table, order: seq<int>, p: ProcessInfo)
    requires p.pid in order && Lookup(t, p.pid) == Some(p)
    ensures p in Known(t, order)
  {
    KnownRows(t, order);
  }

  lemma RowsAreChildrenFirst(t: Table, order: seq<int>, k: nat, child: ProcessInfo)
    requires ChildrenFirst(t, {}, order) && k < |Known(t, order)|
    requires IsChild(t, Known(t, order)[k].pid, child.pid) && Lookup(t, child.pid) == Some(child)
    ensures child in Known(t, order)[..k]
  {
    KnownSplits(t, order, k);
    var i :| 0 <= i < |order| && order[i] == Known(t, order)[k].pid && Known(t, order[..i]) == Known(t, order)[..k];
    assert IsChild(t, order[i], child.pid);
    var early := order[..i];
    assert child.pid in early;
    KnownHas(t, early, child);
  }

  /** On an acyclic table every child is signalled before its parent. */
  lemma TreeIsChildrenFirst(t: Table, root: int, k: nat, child: ProcessInfo)
    requires Acyclic(t) && k < |Tree(t, root)|
    requires IsChild(t, Tree(t, root)[k].pid, child.pid) && Lookup(t, child.pid) == Some(child)
    ensures child in Tree(t, root)[..k]
  {
    VisitOneChildrenFirst(t, root, {}, Pids(t) + {root});
    RowsAreChildrenFirst(t, Order(t, root), k, child);
  }
}
