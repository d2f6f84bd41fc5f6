/**
 The walk up, the roots a preflight terminates and the pids it protects:
 `scripts/dev-preflight-utils.ts` and `scripts/dev-preflight.ts`.
 */
module ProcessRoots {
  import opened Wrappers
  import opened ProcessForest
  import opened ProcessTrees

  // ---- the chain upward --------------------------------------------------------------------------

  /** A process and its known ancestors; a pid met before ends the chain. */
  ghost function Up(t: Table, pid: int, seen: set<int>): seq<ProcessInfo>
    decreases |Pids(t) - seen|
  {
    var p := Lookup(t, pid);
    if p.None? || pid in seen then []
    else
      assert p.value.pid in Pids(t);
      MarkingShrinks(Pids(t), seen, pid);
      [p.value] + Up(t, p.value.ppid, seen + {pid})
  }

  ghost function Chain(t: Table, pid: int): seq<ProcessInfo> {
    Up(t, pid, {})
  }

  /** The `n`-th step of the loop, if it gets that far. */
  function Climb(t: Table, p: ProcessInfo, n: nat): Option<ProcessInfo> {
    if n == 0 then Some(p)
    else
      var q := Climb(t, p, n - 1);
      if q.None? then None else Lookup(t, q.value.ppid)
  }

  lemma ClimbNext(t: Table, p: ProcessInfo, n: nat)
    requires Climb(t, p, n).Some?
    ensures Climb(t, p, n + 1) == Lookup(t, Climb(t, p, n).value.ppid)
  {
  }

  lemma {:induction false} ClimbIsPrefix(t: Table, p: ProcessInfo, n: nat, m: nat)
    requires n <= m && Climb(t, p, m).Some?
    ensures Climb(t, p, n).Some?
    decreases m
  {
    if n < m {
      ClimbIsPrefix(t, p, n, m - 1);
    }
  }

  lemma {:induction false} ClimbFrom(t: Table, p: ProcessInfo, q: ProcessInfo, m: nat, n: nat)
    requires Climb(t, p, m) == Some(q)
    ensures Climb(t, p, m + n) == Climb(t, q, n)
    decreases n
  {
    if n > 0 {
      ClimbFrom(t, p, q, m, n - 1);
    }
  }

  /** The chain is the climb, up to an unknown parent or a pid met before. */
  lemma {:induction false} UpIsClimb(t: Table, pid: int, seen: set<int>, k: nat)
    requires k <= |Up(t, pid, seen)| && Up(t, pid, seen) != []
    ensures var up, next := Up(t, pid, seen), Climb(t, Lookup(t, pid).value, k);
      && (k < |up| ==> next == Some(up[k]))
      && (k == |up| && next.Some? ==> next.value.pid in seen || exists i :: 0 <= i < |up| && up[i].pid == next.value.pid)
    decreases k
  {
    var p := Lookup(t, pid).value;
    var up, rest := Up(t, pid, seen), Up(t, p.ppid, seen + {pid});
    if k > 0 {
      var parent := Lookup(t, p.ppid);
      if parent.Some? {
        assert Climb(t, p, 0) == Some(p) && Climb(t, p, 1) == parent;
        ClimbFrom(t, p, parent.value, 1, k - 1);
        if rest == [] {
          assert up[0].pid == pid;
        } else {
          UpIsClimb(t, p.ppid, seen + {pid}, k - 1);
          RestIsLater(t, pid, seen, Climb(t, p, k), k);
        }
      } else {
        assert Climb(t, p, 0) == Some(p) && Climb(t, p, 1) == None;
      }
    }
  }

  lemma RestIsLater(t: Table, pid: int, seen: set<int>, next: Option<ProcessInfo>, k: nat)
    requires Up(t, pid, seen) != [] && 0 < k <= |Up(t, pid, seen)|
    requires var rest, met := Up(t, Lookup(t, pid).value.ppid, seen + {pid}), seen + {pid};
      && (k - 1 < |rest| ==> next == Some(rest[k - 1]))
      && (k - 1 == |rest| && next.Some? ==> next.value.pid in met || exists i :: 0 <= i < |rest| && rest[i].pid == next.value.pid)
    ensures var up := Up(t, pid, seen);
      && (k < |up| ==> next == Some(up[k]))
      && (k == |up| && next.Some? ==> next.value.pid in seen || exists i :: 0 <= i < |up| && up[i].pid == next.value.pid)
  {
    var up, rest := Up(t, pid, seen), Up(t, Lookup(t, pid).value.ppid, seen + {pid});
    assert up == [Lookup(t, pid).value] + rest;
    if k == |up| && next.Some? && next.value.pid !in seen {
      if next.value.pid == pid {
        assert up[0].pid == pid;
      } else {
        var i :| 0 <= i < |rest| && rest[i].pid == next.value.pid;
        assert up[i + 1].pid == next.value.pid;
      }
    }
  }

  lemma UpStarts(t: Table, pid: int)
    requires Lookup(t, pid).Some?
    ensures Chain(t, pid) != [] && Chain(t, pid)[0] == Lookup(t, pid).value
  {
  }

  /** Every element of the chain is above the process. */
  lemma {:induction false} UpReaches(t: Table, pid: int, seen: set<int>, k: nat)
    requires k < |Up(t, pid, seen)|
    ensures Up(t, pid, seen)[k] in t && Reaches(t, Up(t, pid, seen)[k].pid, pid)
    decreases k
  {
    var p := Lookup(t, pid).value;
    if k == 0 {
      ReachesItself(t, pid);
    } else {
      var rest := Up(t, p.ppid, seen + {pid});
      UpReaches(t, p.ppid, seen + {pid}, k - 1);
      assert Up(t, pid, seen)[k] == rest[k - 1];
      assert IsChild(t, p.ppid, p.pid);
      ReachesChild(t, rest[k - 1].pid, p.ppid, pid);
    }
  }

  lemma UniqueLookup(t: Table, p: ProcessInfo)
    requires UniquePids(t) && p in t
    ensures Lookup(t, p.pid) == Some(p)
  {
    var i :| 0 <= i < |t| && t[i] == p;
    var q := Lookup(t, p.pid).value;
    var j :| 0 <= j < |t| && t[j] == q;
    assert i == j;
  }

  // ---- when the climb ends -------------------------------------------------------------------------

  ghost predicate OwnAncestor(t: Table, q: ProcessInfo) {
    exists m :: m > 0 && Climb(t, q, m) == Some(q)
  }

  /** The climb comes past no process that is its own ancestor. */
  ghost predicate NoCycleAbove(t: Table, p: ProcessInfo) {
    forall n, q :: Climb(t, p, n) == Some(q) ==> !OwnAncestor(t, q)
  }

  /** The loop's exit is reached. */
  ghost predicate ClimbEnds(t: Table, p: ProcessInfo) {
    exists n :: Climb(t, p, n).None?
  }

  /** Behind the end of the chain the climb stops, or goes round. */
  lemma ChainEnds(t: Table, pid: int)
    requires Lookup(t, pid).Some?
    ensures var p, chain := Lookup(t, pid).value, Chain(t, pid);
      Climb(t, p, |chain|).None? || exists i :: 0 <= i < |chain| && Climb(t, p, |chain|) == Some(chain[i])
  {
    var p, chain := Lookup(t, pid).value, Chain(t, pid);
    UpIsClimb(t, pid, {}, |chain|);
    var next := Climb(t, p, |chain|);
    if next.Some? {
      var i :| 0 <= i < |chain| && chain[i].pid == next.value.pid;
      UpLooksUp(t, pid, {}, i);
    }
  }

  lemma {:induction false} UpLooksUp(t: Table, pid: int, seen: set<int>, k: nat)
    requires k < |Up(t, pid, seen)|
    ensures Lookup(t, Up(t, pid, seen)[k].pid) == Some(Up(t, pid, seen)[k])
    decreases k
  {
    if k > 0 {
      UpLooksUp(t, Lookup(t, pid).value.ppid, seen + {pid}, k - 1);
    }
  }

  lemma MetTwice(t: Table, p: ProcessInfo, i: nat, j: nat)
    requires i < j && Climb(t, p, i).Some? && Climb(t, p, i) == Climb(t, p, j)
    ensures !NoCycleAbove(t, p)
  {
    var q := Climb(t, p, i).value;
    ClimbFrom(t, p, q, i, j - i);
    assert OwnAncestor(t, q);
  }

  /** Without a cycle above, the chain ends only where a parent is unknown. */
  lemma ChainEndsUnknown(t: Table, pid: int)
    requires Lookup(t, pid).Some? && NoCycleAbove(t, Lookup(t, pid).value)
    ensures Climb(t, Lookup(t, pid).value, |Chain(t, pid)|).None?
  {
    var p, chain := Lookup(t, pid).value, Chain(t, pid);
    ChainEnds(t, pid);
    if Climb(t, p, |chain|).Some? {
      var i :| 0 <= i < |chain| && Climb(t, p, |chain|) == Some(chain[i]);
      UpIsClimb(t, pid, {}, i);
      MetTwice(t, p, i, |chain|);
    }
  }

  lemma ChainIsClimb(t: Table, pid: int, k: nat)
    requires k < |Chain(t, pid)|
    ensures Lookup(t, pid).Some? && Climb(t, Lookup(t, pid).value, k) == Some(Chain(t, pid)[k])
  {
    UpIsClimb(t, pid, {}, k);
  }

  lemma ChainContinues(t: Table, pid: int, k: nat)
    requires k < |Chain(t, pid)| && NoCycleAbove(t, Lookup(t, pid).value)
    ensures Lookup(t, Chain(t, pid)[k].ppid) == if k + 1 < |Chain(t, pid)| then Some(Chain(t, pid)[k + 1]) else None
  {
    ChainIsClimb(t, pid, k);
    ClimbNext(t, Lookup(t, pid).value, k);
    if k + 1 < |Chain(t, pid)| {
      ChainIsClimb(t, pid, k + 1);
    } else {
      ChainEndsUnknown(t, pid);
    }
  }

  /** From a process that is its own ancestor the climb never ends. */
  lemma {:induction false} CycleNeverEnds(t: Table, p: ProcessInfo, n: nat, m: nat)
    requires m > 0 && Climb(t, p, m) == Some(p)
    ensures Climb(t, p, n).Some?
    decreases n
  {
    if n <= m {
      ClimbIsPrefix(t, p, n, m);
    } else {
      CycleNeverEnds(t, p, n - m, m);
      ClimbFrom(t, p, p, m, n - m);
    }
  }

  lemma BelowACycleNeverEnds(t: Table, p: ProcessInfo, k: nat, q: ProcessInfo, n: nat)
    requires Climb(t, p, k) == Some(q) && OwnAncestor(t, q)
    ensures Climb(t, p, n).Some?
  {
    if n <= k {
      ClimbIsPrefix(t, p, n, k);
    } else {
      var m :| m > 0 && Climb(t, q, m) == Some(q);
      CycleNeverEnds(t, q, n - k, m);
      ClimbFrom(t, p, q, k, n - k);
    }
  }

  lemma CycleIsAboveTheChild(t: Table, p: ProcessInfo, q: ProcessInfo)
    requires NoCycleAbove(t, p) && Climb(t, p, 1) == Some(q)
    ensures NoCycleAbove(t, q)
  {
    forall n, r | Climb(t, q, n) == Some(r) ensures !OwnAncestor(t, r) {
      ClimbFrom(t, p, q, 1, n);
    }
  }

  /** On every table the climb ends exactly when it comes past no process that is its own ancestor. */
  lemma ClimbEndsExactly(t: Table, p: ProcessInfo)
    ensures ClimbEnds(t, p) <==> NoCycleAbove(t, p)
  {
    if ClimbEnds(t, p) {
      var n :| Climb(t, p, n).None?;
      forall k, q | Climb(t, p, k) == Some(q) ensures !OwnAncestor(t, q) {
        if OwnAncestor(t, q) {
          BelowACycleNeverEnds(t, p, k, q, n);
        }
      }
    }
    if NoCycleAbove(t, p) {
      var parent := Climb(t, p, 1);
      if parent.Some? {
        assert Climb(t, p, 0) == Some(p);
        var q := parent.value;
        CycleIsAboveTheChild(t, p, q);
        ChainEndsUnknown(t, q.pid);
        ClimbFrom(t, p, q, 1, |Chain(t, q.pid)|);
      }
    }
  }

  /** One row or more further down. */
  ghost predicate IsBelow(t: Table, from: int, to: int) {
    exists path :: IsPath(t, path) && |path| > 1 && path[0] == from && path[|path| - 1] == to
  }

  /** With unique pids a path down the table is a climb up it. */
  lemma {:induction false} PathIsClimb(t: Table, path: seq<int>)
    requires UniquePids(t) && IsPath(t, path) && Lookup(t, path[0]).Some?
    ensures Lookup(t, path[|path| - 1]).Some?
    ensures Climb(t, Lookup(t, path[|path| - 1]).value, |path| - 1) == Lookup(t, path[0])
  {
    if |path| > 1 {
      var init, pid := path[..|path| - 1], path[|path| - 1];
      assert IsPath(t, init);
      PathIsClimb(t, init);
      assert IsChild(t, path[|path| - 2], path[|path| - 2 + 1]);
      var r :| r in t && r.ppid == path[|path| - 2] && r.pid == pid;
      UniqueLookup(t, r);
      assert Climb(t, r, 0) == Some(r);
      ClimbFrom(t, r, Lookup(t, r.ppid).value, 1, |path| - 2);
    }
  }

  lemma {:induction false} ClimbIsPath(t: Table, p: ProcessInfo, n: nat)
    requires p in t && Climb(t, p, n).Some?
    ensures Climb(t, p, n).value in t
    ensures exists path :: IsPath(t, path) && |path| == n + 1 && path[0] == Climb(t, p, n).value.pid && path[n] == p.pid
  {
    if n == 0 {
      assert IsPath(t, [p.pid]);
    } else {
      ClimbIsPath(t, p, n - 1);
      var b, a := Climb(t, p, n - 1).value, Climb(t, p, n).value;
      var path :| IsPath(t, path) && |path| == n && path[0] == b.pid && path[n - 1] == p.pid;
      assert IsChild(t, a.pid, b.pid);
      PathsJoin(t, [a.pid, b.pid], path);
    }
  }

  lemma OwnAncestorIsBelowItself(t: Table, q: ProcessInfo)
    requires UniquePids(t) && q in t
    ensures OwnAncestor(t, q) <==> IsBelow(t, q.pid, q.pid)
  {
    UniqueLookup(t, q);
    if OwnAncestor(t, q) {
      var m :| m > 0 && Climb(t, q, m) == Some(q);
      ClimbIsPath(t, q, m);
    }
    if IsBelow(t, q.pid, q.pid) {
      var path :| IsPath(t, path) && |path| > 1 && path[0] == q.pid && path[|path| - 1] == q.pid;
      PathIsClimb(t, path);
    }
  }

  /** In the table's own terms: no process above is below itself, wherever else a cycle lies. */
  lemma ClimbEndsWithoutCycleAbove(t: Table, p: ProcessInfo)
    requires UniquePids(t) && p in t
    ensures ClimbEnds(t, p) <==> forall q :: q in t && Reaches(t, q.pid, p.pid) ==> !IsBelow(t, q.pid, q.pid)
  {
    ClimbEndsExactly(t, p);
    UniqueLookup(t, p);
    forall q | q in t && Reaches(t, q.pid, p.pid) && IsBelow(t, q.pid, q.pid) ensures !NoCycleAbove(t, p) {
      OwnAncestorIsBelowItself(t, q);
      UniqueLookup(t, q);
      var path :| IsPath(t, path) && path[0] == q.pid && path[|path| - 1] == p.pid;
      PathIsClimb(t, path);
    }
    if q, n :| Climb(t, p, n) == Some(q) && OwnAncestor(t, q) {
      ClimbIsPath(t, p, n);
      OwnAncestorIsBelowItself(t, q);
    }
  }

  /** A row that names itself as its parent: the climb from it stands still for ever. */
  lemma {:induction false} OwnParentNeverEnds(n: nat)
    ensures var p := ProcessInfo(5, 5, ""); Climb([p], p, n) == Some(p)
  {
    if n > 0 {
      OwnParentNeverEnds(n - 1);
    }
  }

  /** Its child, no ancestor of its own, never gets past it. */
  lemma ChildOfOwnParentNeverEnds()
    ensures var top, child := ProcessInfo(5, 5, ""), ProcessInfo(6, 5, "");
      !ClimbEnds([top, child], child) && !OwnAncestor([top, child], child)
  {
    var top, child := ProcessInfo(5, 5, ""), ProcessInfo(6, 5, "");
    var t := [top, child];
    assert t[..1] == [top] && Lookup([top], 5) == Some(top);
    forall n: nat | n > 0 ensures Climb(t, child, n) == Some(top) {
      StaysAtTheTop(t, top, child, n);
    }
    assert Climb(t, child, 0) == Some(child);
  }

  lemma {:induction false} StaysAtTheTop(t: Table, top: ProcessInfo, child: ProcessInfo, n: nat)
    requires n > 0 && child.ppid == top.ppid && Lookup(t, top.ppid) == Some(top)
    ensures Climb(t, child, n) == Some(top)
  {
    if n == 1 {
      assert Climb(t, child, 0) == Some(child);
    } else {
      StaysAtTheTop(t, top, child, n - 1);
    }
  }

  // ---- the chain and the trees ---------------------------------------------------------------------

  /** Round a cycle or not, the climb never leaves the chain. */
  lemma {:induction false} ClimbInChain(t: Table, pid: int, n: nat)
    requires Lookup(t, pid).Some? && Climb(t, Lookup(t, pid).value, n).Some?
    ensures Climb(t, Lookup(t, pid).value, n).value in Chain(t, pid)
  {
    var p, chain := Lookup(t, pid).value, Chain(t, pid);
    if n == 0 {
      UpStarts(t, pid);
    } else {
      ClimbInChain(t, pid, n - 1);
      var k :| 0 <= k < |chain| && chain[k] == Climb(t, p, n - 1).value;
      UpIsClimb(t, pid, {}, k);
      if k + 1 < |chain| {
        UpIsClimb(t, pid, {}, k + 1);
      } else {
        ChainEnds(t, pid);
      }
    }
  }

  /** The duality, on cyclic tables too: the chain upward holds exactly the known processes whose trees hold this one. */
  lemma ChainIsTheTreesAbove(t: Table, p: ProcessInfo, a: ProcessInfo)
    requires UniquePids(t) && p in t && a in t
    ensures a in Chain(t, p.pid) <==> p in Tree(t, a.pid)
  {
    UniqueLookup(t, p);
    UniqueLookup(t, a);
    TreeIsReachable(t, a.pid);
    if Reaches(t, a.pid, p.pid) {
      var path :| IsPath(t, path) && path[0] == a.pid && path[|path| - 1] == p.pid;
      PathIsClimb(t, path);
      ClimbInChain(t, p.pid, |path| - 1);
    }
    if a in Chain(t, p.pid) {
      var k :| 0 <= k < |Chain(t, p.pid)| && Chain(t, p.pid)[k] == a;
      UpReaches(t, p.pid, {}, k);
    }
  }

  // ---- the owning root ----------------------------------------------------------------------------------

  /** The last marked element. */
  function TopMarked(dev: ProcessInfo -> bool, chain: seq<ProcessInfo>): (r: Option<ProcessInfo>)
    ensures r.Some? ==> r.value in chain && dev(r.value)
    ensures r.None? ==> forall p :: p in chain ==> !dev(p)
  {
    if chain == [] then None
    else if dev(chain[|chain| - 1]) then Some(chain[|chain| - 1])
    else TopMarked(dev, chain[..|chain| - 1])
  }

  /** One step up: `graph.byPid.get(current.ppid)`. */
  method Parent(current: ProcessInfo, g: Graph, ghost t: Table, ghost pid: int, ghost k: nat) returns (parent: Option<ProcessInfo>)
    requires Represents(g, t) && k < |Chain(t, pid)| && current == Chain(t, pid)[k]
    requires NoCycleAbove(t, Lookup(t, pid).value)
    ensures parent == if k + 1 < |Chain(t, pid)| then Some(Chain(t, pid)[k + 1]) else None
  {
    ChainContinues(t, pid, k);
    parent := ByPid(g, current.ppid);
  }

  lemma TopMarkedNext(dev: ProcessInfo -> bool, chain: seq<ProcessInfo>, k: nat)
    requires k < |chain|
    ensures TopMarked(dev, chain[..k + 1]) == if dev(chain[k]) then Some(chain[k]) else TopMarked(dev, chain[..k])
  {
    assert chain[..k + 1][..k] == chain[..k];
  }

  method FindOwningRootProcess(process: ProcessInfo, g: Graph, dev: ProcessInfo -> bool, ghost t: Table)
    returns (root: Option<ProcessInfo>)
    requires Represents(g, t) && Lookup(t, process.pid) == Some(process) && NoCycleAbove(t, process)
    ensures root == TopMarked(dev, Chain(t, process.pid))
  {
    ghost var chain := Chain(t, process.pid);
    UpStarts(t, process.pid);
    var current := process;
    root := if dev(process) then Some(process) else None;
    TopMarkedNext(dev, chain, 0);
    ghost var k := 0;
    while true
      invariant 0 <= k < |chain| && current == chain[k]
      invariant root == TopMarked(dev, chain[..k + 1])
      decreases |chain| - k
    {
      var parent := Parent(current, g, t, process.pid, k);
      if parent.None? {
        break;
      }
      TopMarkedNext(dev, chain, k + 1);
      if dev(parent.value) {
        root := parent;
      }
      current := parent.value;
      k := k + 1;
    }
    assert chain[..k + 1] == chain;
  }

  lemma {:induction false} LaterIsAbove(t: Table, pid: int, seen: set<int>, i: nat, j: nat)
    requires i <= j < |Up(t, pid, seen)|
    ensures Reaches(t, Up(t, pid, seen)[j].pid, Up(t, pid, seen)[i].pid)
    decreases i
  {
    var p := Lookup(t, pid).value;
    if i == 0 {
      UpReaches(t, pid, seen, j);
    } else {
      LaterIsAbove(t, p.ppid, seen + {pid}, i - 1, j - 1);
    }
  }

  lemma {:induction false} TopMarkedIsLast(dev: ProcessInfo -> bool, chain: seq<ProcessInfo>, i: nat)
    requires i < |chain| && dev(chain[i])
    ensures exists j :: i <= j < |chain| && TopMarked(dev, chain) == Some(chain[j])
  {
    if !dev(chain[|chain| - 1]) {
      TopMarkedIsLast(dev, chain[..|chain| - 1], i);
    }
  }

  /** The owning root is marked, above the process, and above every marked process above it. */
  lemma OwningRootIsTopmost(t: Table, dev: ProcessInfo -> bool, p: ProcessInfo)
    requires UniquePids(t) && p in t
    ensures var root := TopMarked(dev, Chain(t, p.pid));
      && (root.Some? <==> exists a :: a in t && dev(a) && Reaches(t, a.pid, p.pid))
      && (root.Some? ==>
            && root.value in t && dev(root.value) && Reaches(t, root.value.pid, p.pid)
            && forall a :: a in t && dev(a) && Reaches(t, a.pid, p.pid) ==> Reaches(t, root.value.pid, a.pid))
  {
    var chain := Chain(t, p.pid);
    var root := TopMarked(dev, chain);
    UniqueLookup(t, p);
    if root.Some? {
      var k :| 0 <= k < |chain| && chain[k] == root.value;
      UpReaches(t, p.pid, {}, k);
    }
    forall a | a in t && dev(a) && Reaches(t, a.pid, p.pid)
      ensures root.Some? && Reaches(t, root.value.pid, a.pid)
    {
      TreeIsReachable(t, a.pid);
      ChainIsTheTreesAbove(t, p, a);
      var i :| 0 <= i < |chain| && chain[i] == a;
      TopMarkedIsLast(dev, chain, i);
      var j :| i <= j < |chain| && root == Some(chain[j]);
      LaterIsAbove(t, p.pid, {}, i, j);
    }
  }
}
