/**
 What a dev preflight signals and what it leaves alone: `scripts/dev-preflight.ts`, with
 `decideDaemonProtection` of `scripts/dev-preflight-utils.ts`.
 */
module Preflight {
  import opened Wrappers
  import opened ProcessForest
  import opened ProcessTrees
  import opened ProcessRoots

  // ---- the daemon's record ------------------------------------------------------------------------

  datatype Match = Same | Different | Unknown

  datatype OpenCode = OpenCode(owned: bool, pid: Option<int>, startToken: Option<string>)

  datatype DaemonState = DaemonState(pid: int, startToken: Option<string>, opencode: Option<OpenCode>)

  datatype Warning = RecycledDaemon | UnverifiedDaemon | RecycledOpenCode

  datatype Protection = Protection(pids: seq<int>, warnings: seq<Warning>)

  method DecideDaemonProtection(state: Option<DaemonState>, alive: int -> bool, match_: (int, Option<string>) -> Match)
    returns (r: Protection)
    ensures r.pids == ProtectedByRecord(state, alive, match_)
    ensures r.warnings == [] ==> state.None? || !alive(state.value.pid) || match_(state.value.pid, state.value.startToken).Same?
  {
    if state.None? || !alive(state.value.pid) {
      return Protection([], []);
    }
    var daemon := match_(state.value.pid, state.value.startToken);
    if daemon.Different? {
      return Protection([], [RecycledDaemon]);
    }
    var pids := [state.value.pid];
    var warnings := if daemon.Unknown? then [UnverifiedDaemon] else [];
    var opencode := state.value.opencode;
    if opencode.Some? && opencode.value.owned && opencode.value.pid.Some? && opencode.value.pid.value > 0 {
      var child := match_(opencode.value.pid.value, opencode.value.startToken);
      if child.Different? {
        warnings := warnings + [RecycledOpenCode];
      } else {
        pids := pids + [opencode.value.pid.value];
      }
    }
    return Protection(pids, warnings);
  }

  /** The daemon, unless it is gone or proved to be another process; with it an owned OpenCode server, on the same terms. */
  function ProtectedByRecord(state: Option<DaemonState>, alive: int -> bool, match_: (int, Option<string>) -> Match): seq<int> {
    if state.None? || !alive(state.value.pid) || match_(state.value.pid, state.value.startToken).Different? then []
    else
      [state.value.pid] + ProtectedServer(state.value.opencode, match_)
  }

  function ProtectedServer(opencode: Option<OpenCode>, match_: (int, Option<string>) -> Match): seq<int> {
    if opencode.None? || !opencode.value.owned || opencode.value.pid.None? || opencode.value.pid.value <= 0 then []
    else if match_(opencode.value.pid.value, opencode.value.startToken).Different? then []
    else [opencode.value.pid.value]
  }

  /** A live daemon that nothing disproves is protected: only a positive mismatch withdraws it. */
  lemma UnverifiedIsProtected(state: DaemonState, alive: int -> bool, match_: (int, Option<string>) -> Match)
    ensures state.pid in ProtectedByRecord(Some(state), alive, match_)
         <==> alive(state.pid) && !match_(state.pid, state.startToken).Different?
  {
  }

  // ---- the protected pids ---------------------------------------------------------------------------

  ghost function PidsOf(rows: seq<ProcessInfo>): set<int> {
    set p | p in rows :: p.pid
  }

  /** This process and its ancestors, and every protected daemon with its tree. */
  ghost predicate IsProtected(t: Table, self: int, daemons: seq<int>, pid: int) {
    || pid in PidsOf(Chain(t, self))
    || exists d :: d in daemons && (pid == d || pid in PidsOf(Tree(t, d)))
  }

  /** No process above this one is its own ancestor. */
  ghost predicate SelfEnds(t: Table, self: int) {
    Lookup(t, self).Some? ==> NoCycleAbove(t, Lookup(t, self).value)
  }

  method ProtectAncestors(self: int, g: Graph, ghost t: Table) returns (pids: set<int>)
    requires Represents(g, t) && SelfEnds(t, self)
    ensures pids == PidsOf(Chain(t, self))
  {
    ghost var chain := Chain(t, self);
    pids := {};
    var current := ByPid(g, self);
    if current.Some? {
      UpStarts(t, self);
    }
    ghost var k := 0;
    while current.Some?
      invariant 0 <= k <= |chain|
      invariant current.Some? <==> k < |chain|
      invariant current.Some? ==> current.value == chain[k]
      invariant pids == PidsOf(chain[..k])
      decreases |chain| - k
    {
      PidsOfNext(chain, k);
      pids := pids + {current.value.pid};
      current := Parent(current.value, g, t, self, k);
      k := k + 1;
    }
    assert chain[..k] == chain;
  }

  lemma PidsOfNext(rows: seq<ProcessInfo>, k: nat)
    requires k < |rows|
    ensures PidsOf(rows[..k + 1]) == PidsOf(rows[..k]) + {rows[k].pid}
  {
    assert rows[..k + 1] == rows[..k] + [rows[k]];
  }

  ghost function TreePids(t: Table, daemon: int): set<int> {
    PidsOf(Tree(t, daemon)) + {daemon}
  }

  method ProtectTree(daemon: int, g: Graph, ghost t: Table) returns (pids: set<int>)
    requires Represents(g, t)
    ensures pids == TreePids(t, daemon)
  {
    var tree := CollectProcessTree(daemon, g, t);
    pids := (set p | p in tree :: p.pid) + {daemon};
  }

  method CollectProtectedPids(self: int, g: Graph, daemons: seq<int>, ghost t: Table) returns (pids: set<int>)
    requires Represents(g, t) && SelfEnds(t, self)
    ensures forall pid :: pid in pids <==> IsProtected(t, self, daemons, pid)
  {
    pids := ProtectAncestors(self, g, t);
    ghost var ancestors := pids;
    ghost var trees: seq<set<int>> := [];
    for i := 0 to |daemons|
      invariant |trees| == i
      invariant forall k :: 0 <= k < i ==> trees[k] == TreePids(t, daemons[k])
      invariant pids == Union(ancestors, trees)
    {
      var more := ProtectTree(daemons[i], g, t);
      UnionGrows(ancestors, trees, more);
      trees := trees + [more];
      pids := pids + more;
    }
    UnionHas(ancestors, trees);
    TreesAreProtected(t, self, daemons, trees);
  }

  function Union(first: set<int>, rest: seq<set<int>>): set<int> {
    if rest == [] then first else Union(first, rest[..|rest| - 1]) + rest[|rest| - 1]
  }

  lemma UnionGrows(first: set<int>, rest: seq<set<int>>, more: set<int>)
    ensures Union(first, rest + [more]) == Union(first, rest) + more
  {
    assert (rest + [more])[..|rest|] == rest;
  }

  lemma {:induction false} UnionHas(first: set<int>, rest: seq<set<int>>)
    ensures forall pid :: pid in Union(first, rest) <==> pid in first || exists k :: 0 <= k < |rest| && pid in rest[k]
  {
    if rest != [] {
      UnionHas(first, rest[..|rest| - 1]);
    }
  }

  lemma TreesAreProtected(t: Table, self: int, daemons: seq<int>, trees: seq<set<int>>)
    requires |trees| == |daemons|
    requires forall k :: 0 <= k < |trees| ==> trees[k] == TreePids(t, daemons[k])
    ensures forall pid :: IsProtected(t, self, daemons, pid) <==>
      pid in PidsOf(Chain(t, self)) || exists k :: 0 <= k < |trees| && pid in trees[k]
  {
    forall pid | exists k :: 0 <= k < |trees| && pid in trees[k] ensures IsProtected(t, self, daemons, pid) {
      var k :| 0 <= k < |trees| && pid in trees[k];
      assert daemons[k] in daemons;
    }
  }

  // ---- the roots a preflight terminates --------------------------------------------------------------

  ghost function OwningRoot(t: Table, dev: ProcessInfo -> bool, p: ProcessInfo): Option<ProcessInfo> {
    TopMarked(dev, Chain(t, p.pid))
  }

  /** The root that a row of the table leads the stale-process loop to. */
  ghost function PickedBy(t: Table, dev: ProcessInfo -> bool, self: int, guarded: set<int>, p: ProcessInfo): Option<ProcessInfo> {
    if p.pid == self || !dev(p) then None
    else
      var root := OwningRoot(t, dev, p);
      if root.Some? && root.value.pid !in guarded then root else None
  }

  ghost predicate IsStaleRoot(t: Table, dev: ProcessInfo -> bool, self: int, guarded: set<int>, root: ProcessInfo) {
    exists p :: p in t && PickedBy(t, dev, self, guarded, p) == Some(root)
  }

  method PickRoot(entry: ProcessInfo, g: Graph, dev: ProcessInfo -> bool, self: int, guarded: set<int>, ghost t: Table)
    returns (root: Option<ProcessInfo>)
    requires Represents(g, t) && UniquePids(t) && entry in t
    requires entry.pid != self && dev(entry) ==> NoCycleAbove(t, entry)
    ensures root == PickedBy(t, dev, self, guarded, entry)
    ensures root.Some? ==> root.value in t
  {
    if entry.pid == self || !dev(entry) {
      return None;
    }
    UniqueLookup(t, entry);
    ChainIsInTable(t, entry.pid);
    root := FindOwningRootProcess(entry, g, dev, t);
    if root.Some? && root.value.pid in guarded {
      root := None;
    }
  }

  /** `staleRoots.set(root.pid, root)`, one row after the other. */
  ghost function StaleRoots(t: Table, dev: ProcessInfo -> bool, self: int, guarded: set<int>, rows: Table): map<int, ProcessInfo> {
    if rows == [] then map[]
    else
      var before := StaleRoots(t, dev, self, guarded, rows[..|rows| - 1]);
      var root := PickedBy(t, dev, self, guarded, rows[|rows| - 1]);
      if root.None? then before else before[root.value.pid := root.value]
  }

  method FindStaleRoots(t: Table, g: Graph, dev: ProcessInfo -> bool, self: int, guarded: set<int>)
    returns (roots: map<int, ProcessInfo>)
    requires Represents(g, t) && UniquePids(t)
    requires forall p :: p in t && p.pid != self && dev(p) ==> NoCycleAbove(t, p)
    ensures roots == StaleRoots(t, dev, self, guarded, t)
  {
    roots := map[];
    for i := 0 to |t|
      invariant roots == StaleRoots(t, dev, self, guarded, t[..i])
    {
      assert t[..i + 1][..i] == t[..i];
      var root := PickRoot(t[i], g, dev, self, guarded, t);
      if root.Some? {
        roots := roots[root.value.pid := root.value];
      }
    }
    assert t[..|t|] == t;
  }

  /** The stale roots, each under its own pid. */
  ghost predicate AreStaleRoots(t: Table, dev: ProcessInfo -> bool, self: int, guarded: set<int>, rows: Table,
                                roots: map<int, ProcessInfo>) {
    && (forall pid :: pid in roots ==>
          && roots[pid].pid == pid
          && exists p :: p in rows && PickedBy(t, dev, self, guarded, p) == Some(roots[pid]))
    && (forall p :: p in rows && PickedBy(t, dev, self, guarded, p).Some? ==>
          var root := PickedBy(t, dev, self, guarded, p).value;
          root.pid in roots && roots[root.pid] == root)
  }

  /** The loop ends with exactly the roots of the rows it looked at, none twice. */
  lemma {:induction false} StaleRootsAreThose(t: Table, dev: ProcessInfo -> bool, self: int, guarded: set<int>, rows: Table)
    requires UniquePids(t)
    ensures AreStaleRoots(t, dev, self, guarded, rows, StaleRoots(t, dev, self, guarded, rows))
  {
    if rows != [] {
      var init, last := rows[..|rows| - 1], rows[|rows| - 1];
      StaleRootsAreThose(t, dev, self, guarded, init);
      assert rows == init + [last];
      var before, root := StaleRoots(t, dev, self, guarded, init), PickedBy(t, dev, self, guarded, last);
      if root.Some? {
        OneRootPerPid(t, dev, self, guarded, last);
        RootAdded(t, dev, self, guarded, init, last, before);
      }
    }
  }

  lemma OneRootPerPid(t: Table, dev: ProcessInfo -> bool, self: int, guarded: set<int>, p: ProcessInfo)
    requires UniquePids(t) && PickedBy(t, dev, self, guarded, p).Some?
    ensures var root := PickedBy(t, dev, self, guarded, p).value; Lookup(t, root.pid) == Some(root)
  {
    ChainIsInTable(t, p.pid);
    UniqueLookup(t, PickedBy(t, dev, self, guarded, p).value);
  }

  lemma RootAdded(t: Table, dev: ProcessInfo -> bool, self: int, guarded: set<int>, init: Table,
                  last: ProcessInfo, before: map<int, ProcessInfo>)
    requires UniquePids(t) && AreStaleRoots(t, dev, self, guarded, init, before)
    requires PickedBy(t, dev, self, guarded, last).Some?
    ensures var root := PickedBy(t, dev, self, guarded, last).value;
      AreStaleRoots(t, dev, self, guarded, init + [last], before[root.pid := root])
  {
    var root := PickedBy(t, dev, self, guarded, last).value;
    var after := before[root.pid := root];
    var rows := init + [last];
    assert last in rows;
    OneRootPerPid(t, dev, self, guarded, last);
    forall p | p in rows && PickedBy(t, dev, self, guarded, p).Some?
      ensures var r := PickedBy(t, dev, self, guarded, p).value; r.pid in after && after[r.pid] == r
    {
      OneRootPerPid(t, dev, self, guarded, p);
    }
    forall pid | pid in after ensures exists p :: p in rows && PickedBy(t, dev, self, guarded, p) == Some(after[pid]) {
      if pid != root.pid {
        var p :| p in init && PickedBy(t, dev, self, guarded, p) == Some(before[pid]);
        assert p in rows;
      }
    }
  }

  lemma StaleRootIsInTable(t: Table, dev: ProcessInfo -> bool, self: int, guarded: set<int>, root: ProcessInfo)
    requires IsStaleRoot(t, dev, self, guarded, root)
    ensures root in t && root.pid !in guarded && dev(root)
    ensures exists k :: 0 <= k < |t| && PickedBy(t, dev, self, guarded, t[k]) == Some(root)
  {
    var p :| p in t && PickedBy(t, dev, self, guarded, p) == Some(root);
    ChainIsInTable(t, p.pid);
    var k :| 0 <= k < |t| && t[k] == p;
    assert PickedBy(t, dev, self, guarded, t[k]) == Some(root);
  }

  lemma ChainIsInTable(t: Table, pid: int)
    ensures forall p :: p in Chain(t, pid) ==> p in t
  {
    forall k | 0 <= k < |Chain(t, pid)| ensures Chain(t, pid)[k] in t {
      UpReaches(t, pid, {}, k);
    }
  }

  // ---- what a preflight never signals --------------------------------------------------------------------

  /** The tree of a root that is not protected holds neither this process nor any of its ancestors. */
  lemma AncestorsAreSpared(t: Table, self: int, daemons: seq<int>, root: ProcessInfo, a: ProcessInfo)
    requires UniquePids(t) && root in t && Lookup(t, self).Some?
    requires !IsProtected(t, self, daemons, root.pid)
    requires a in Chain(t, self)
    ensures a !in Tree(t, root.pid)
  {
    ChainIsInTable(t, self);
    ChainIsTheTreesAbove(t, Lookup(t, self).value, a);
    TreeIsReachable(t, a.pid);
    if a in Tree(t, root.pid) {
      TreeIsReachable(t, root.pid);
      ReachesThrough(t, root.pid, a.pid, self);
      ChainIsTheTreesAbove(t, Lookup(t, self).value, root);
    }
  }

  /** This process is the first of its own chain. */
  lemma SelfIsSpared(t: Table, self: int, daemons: seq<int>, root: ProcessInfo)
    requires UniquePids(t) && root in t && Lookup(t, self).Some?
    requires !IsProtected(t, self, daemons, root.pid)
    ensures Lookup(t, self).value !in Tree(t, root.pid)
  {
    UpStarts(t, self);
    AncestorsAreSpared(t, self, daemons, root, Lookup(t, self).value);
  }

  /** With unique pids two processes above a third are one above the other. */
  lemma {:induction false} AboveIsLinear(t: Table, p: seq<int>, q: seq<int>)
    requires UniquePids(t) && IsPath(t, p) && IsPath(t, q) && p[|p| - 1] == q[|q| - 1]
    ensures Reaches(t, p[0], q[0]) || Reaches(t, q[0], p[0])
    decreases |p|
  {
    if |p| == 1 {
      assert Reaches(t, q[0], p[0]);
    } else if |q| == 1 {
      assert Reaches(t, p[0], q[0]);
    } else {
      var a, b := p[..|p| - 1], q[..|q| - 1];
      assert IsChild(t, p[|p| - 2], p[|p| - 2 + 1]) && IsChild(t, q[|q| - 2], q[|q| - 2 + 1]);
      OneParent(t, p[|p| - 2], q[|q| - 2], p[|p| - 1]);
      assert IsPath(t, a) && IsPath(t, b);
      AboveIsLinear(t, a, b);
    }
  }

  lemma OneParent(t: Table, a: int, b: int, child: int)
    requires UniquePids(t) && IsChild(t, a, child) && IsChild(t, b, child)
    ensures a == b
  {
    var p :| p in t && p.ppid == a && p.pid == child;
    var q :| q in t && q.ppid == b && q.pid == child;
    UniqueLookup(t, p);
    UniqueLookup(t, q);
  }

  lemma UnprotectedIsNotBelow(t: Table, self: int, daemons: seq<int>, root: ProcessInfo, daemon: ProcessInfo)
    requires UniquePids(t) && root in t && daemon.pid in daemons && !IsProtected(t, self, daemons, root.pid)
    ensures !Reaches(t, daemon.pid, root.pid)
  {
    TreeIsReachable(t, daemon.pid);
    UniqueLookup(t, root);
    if Reaches(t, daemon.pid, root.pid) {
      BelowIsProtected(t, self, daemons, daemon.pid, root);
    }
  }

  lemma BelowIsProtected(t: Table, self: int, daemons: seq<int>, daemon: int, p: ProcessInfo)
    requires daemon in daemons && p in Tree(t, daemon)
    ensures IsProtected(t, self, daemons, p.pid)
  {
  }

  /**
   The trees of a root that is not protected and of a protected daemon meet exactly when the
   daemon sits below the root; then the root's tree holds the daemon's whole tree.
   */
  lemma DaemonIsHitOnlyFromAbove(t: Table, self: int, daemons: seq<int>, root: ProcessInfo, daemon: ProcessInfo)
    requires UniquePids(t) && root in t && daemon in t && daemon.pid in daemons
    requires !IsProtected(t, self, daemons, root.pid)
    ensures (exists p :: p in Tree(t, root.pid) && p in Tree(t, daemon.pid)) <==> Reaches(t, root.pid, daemon.pid)
    ensures Reaches(t, root.pid, daemon.pid) ==> forall p :: p in Tree(t, daemon.pid) ==> p in Tree(t, root.pid)
  {
    TreeIsReachable(t, root.pid);
    TreeIsReachable(t, daemon.pid);
    UniqueLookup(t, root);
    UniqueLookup(t, daemon);
    if p :| p in Tree(t, root.pid) && p in Tree(t, daemon.pid) {
      var a :| IsPath(t, a) && a[0] == root.pid && a[|a| - 1] == p.pid;
      var b :| IsPath(t, b) && b[0] == daemon.pid && b[|b| - 1] == p.pid;
      AboveIsLinear(t, a, b);
      UnprotectedIsNotBelow(t, self, daemons, root, daemon);
    }
    if Reaches(t, root.pid, daemon.pid) {
      ReachesItself(t, daemon.pid);
      assert daemon in Tree(t, daemon.pid);
      forall p | p in Tree(t, daemon.pid) ensures p in Tree(t, root.pid) {
        ReachesThrough(t, root.pid, daemon.pid, p.pid);
      }
    }
  }

  /** What the preflight signals for the stale roots, one tree after the other. */
  ghost predicate IsSignalled(t: Table, dev: ProcessInfo -> bool, self: int, guarded: set<int>, p: ProcessInfo) {
    exists root :: IsStaleRoot(t, dev, self, guarded, root) && p in Tree(t, root.pid)
  }

  /** Whatever the table and whatever is marked, the stale-process loop spares this process and all above it. */
  lemma LoopSparesAncestors(t: Table, dev: ProcessInfo -> bool, self: int, daemons: seq<int>, guarded: set<int>,
                            a: ProcessInfo)
    requires UniquePids(t) && Lookup(t, self).Some?
    requires forall pid :: pid in guarded <==> IsProtected(t, self, daemons, pid)
    requires a in Chain(t, self)
    ensures !IsSignalled(t, dev, self, guarded, a)
  {
    forall root | IsStaleRoot(t, dev, self, guarded, root) ensures a !in Tree(t, root.pid) {
      StaleRootIsInTable(t, dev, self, guarded, root);
      AncestorsAreSpared(t, self, daemons, root, a);
    }
  }

  /** Whom the loop reaches: every marked process that is not this one, unless its root is protected. */
  lemma LoopReachesTheRest(t: Table, dev: ProcessInfo -> bool, self: int, guarded: set<int>, p: ProcessInfo)
    requires UniquePids(t) && p in t && dev(p) && p.pid != self
    ensures OwningRoot(t, dev, p).Some?
    ensures OwningRoot(t, dev, p).value.pid !in guarded ==> IsSignalled(t, dev, self, guarded, p)
  {
    OwningRootIsTopmost(t, dev, p);
    ReachesItself(t, p.pid);
    var root := OwningRoot(t, dev, p).value;
    if root.pid !in guarded {
      assert PickedBy(t, dev, self, guarded, p) == Some(root);
      TreeIsReachable(t, root.pid);
      UniqueLookup(t, p);
    }
  }

  // ---- the occupants of a port ------------------------------------------------------------------------------

  datatype Resolution = Resolution(roots: map<int, ProcessInfo>, unrelatedOccupants: seq<ProcessInfo>)

  /** One occupant after the other: its root, or itself as unrelated; an unknown pid leaves no trace. */
  ghost function Resolved(t: Table, dev: ProcessInfo -> bool, occupants: seq<int>): Resolution {
    if occupants == [] then Resolution(map[], [])
    else
      var r := Resolved(t, dev, occupants[..|occupants| - 1]);
      var occupant := Lookup(t, occupants[|occupants| - 1]);
      if occupant.None? then r
      else
        var root := OwningRoot(t, dev, occupant.value);
        if root.None? then r.(unrelatedOccupants := r.unrelatedOccupants + [occupant.value])
        else r.(roots := r.roots[root.value.pid := root.value])
  }

  method ResolveProcessTreesToTerminate(t: Table, dev: ProcessInfo -> bool, occupants: seq<int>) returns (r: Resolution)
    requires UniquePids(t)
    requires forall p :: p in t && p.pid in occupants ==> NoCycleAbove(t, p)
    ensures r == Resolved(t, dev, occupants)
  {
    var g := BuildProcessGraph(t);
    r := Resolution(map[], []);
    for i := 0 to |occupants|
      invariant r == Resolved(t, dev, occupants[..i])
    {
      assert occupants[..i + 1][..i] == occupants[..i];
      var occupant := ByPid(g, occupants[i]);
      if occupant.None? {
        continue;
      }
      var root := FindOwningRootProcess(occupant.value, g, dev, t);
      if root.None? {
        r := r.(unrelatedOccupants := r.unrelatedOccupants + [occupant.value]);
        continue;
      }
      r := r.(roots := r.roots[root.value.pid := root.value]);
    }
    assert occupants[..|occupants|] == occupants;
  }

  /** A port is reclaimed: the tree of every occupant's root holds the occupant. */
  lemma OccupantIsUnderItsRoot(t: Table, dev: ProcessInfo -> bool, p: ProcessInfo)
    requires UniquePids(t) && p in t && OwningRoot(t, dev, p).Some?
    ensures p in Tree(t, OwningRoot(t, dev, p).value.pid)
  {
    OwningRootIsTopmost(t, dev, p);
    TreeIsReachable(t, OwningRoot(t, dev, p).value.pid);
    UniqueLookup(t, p);
  }

  /** No occupant is unrelated exactly when every known one has a marked process above it. */
  lemma {:induction false} NoneIsUnrelated(t: Table, dev: ProcessInfo -> bool, occupants: seq<int>)
    requires UniquePids(t)
    ensures Resolved(t, dev, occupants).unrelatedOccupants == [] <==>
      forall p :: p in t && p.pid in occupants ==> HasOwner(t, dev, p)
  {
    if occupants != [] {
      var init, last := occupants[..|occupants| - 1], occupants[|occupants| - 1];
      NoneIsUnrelated(t, dev, init);
      assert occupants == init + [last];
      var occupant := Lookup(t, last);
      if occupant.Some? {
        OwningRootIsTopmost(t, dev, occupant.value);
      }
      forall p | p in t && p.pid == last ensures occupant == Some(p) {
        UniqueLookup(t, p);
      }
      UnrelatedPieces(t, dev, init, last);
    }
  }

  ghost predicate HasOwner(t: Table, dev: ProcessInfo -> bool, p: ProcessInfo) {
    exists a :: a in t && dev(a) && Reaches(t, a.pid, p.pid)
  }

  lemma UnrelatedPieces(t: Table, dev: ProcessInfo -> bool, init: seq<int>, last: int)
    ensures (forall p :: p in t && p.pid in init + [last] ==> HasOwner(t, dev, p))
       <==> (forall p :: p in t && p.pid in init ==> HasOwner(t, dev, p))
            && (forall p :: p in t && p.pid == last ==> HasOwner(t, dev, p))
  {
  }
}
