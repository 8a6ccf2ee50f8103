/** Walks over the parent relation of a process snapshot: `_descendant_pids` and `_tree_for_pid`.
    The relation may hold cycles, self-loops, unknown parents and repeated pids. */
module ProcessTree {

  datatype Row = Row(pid: int, ppid: int, hermes: bool)

  /** `child` is listed with the parent `parent`. */
  ghost predicate Edge(rows: seq<Row>, parent: int, child: int) {
    exists i :: 0 <= i < |rows| && rows[i].pid == child && rows[i].ppid == parent
  }

  ghost predicate IsPath(rows: seq<Row>, path: seq<int>) {
    && path != []
    && forall i :: 0 <= i < |path| - 1 ==> Edge(rows, path[i], path[i + 1])
  }

  ghost predicate Reachable(rows: seq<Row>, root: int, pid: int) {
    exists path :: IsPath(rows, path) && path[0] == root && path[|path| - 1] == pid
  }

  lemma RootIsReachable(rows: seq<Row>, root: int)
    ensures Reachable(rows, root, root)
  {
    assert IsPath(rows, [root]);
  }

  lemma ReachableStep(rows: seq<Row>, root: int, parent: int, child: int)
    requires Reachable(rows, root, parent) && Edge(rows, parent, child)
    ensures Reachable(rows, root, child)
  {
    var path :| IsPath(rows, path) && path[0] == root && path[|path| - 1] == parent;
    assert IsPath(rows, path + [child]);
  }

  /** A set that holds the root and is closed under child edges holds everything reachable. */
  lemma {:induction false} ClosedHoldsReachable(rows: seq<Row>, root: int, s: set<int>, path: seq<int>)
    requires root in s && forall p, c :: p in s && Edge(rows, p, c) ==> c in s
    requires IsPath(rows, path) && path[0] == root
    ensures path[|path| - 1] in s
  {
    if |path| > 1 {
      var init := path[..|path| - 1];
      assert forall i :: 0 <= i < |init| - 1 ==> Edge(rows, path[i], path[i + 1]);
      ClosedHoldsReachable(rows, root, s, init);
      assert Edge(rows, path[|path| - 2], path[|path| - 1]);
    }
  }

  // --- The children table ---

  function Children(table: map<int, seq<int>>, pid: int): seq<int> {
    if pid in table then table[pid] else []
  }

  method ChildrenTable(rows: seq<Row>) returns (table: map<int, seq<int>>)
    ensures forall p, c :: c in Children(table, p) <==> Edge(rows, p, c)
  {
    table := map[];
    for k := 0 to |rows|
      invariant forall p, c :: c in Children(table, p) <==> Edge(rows[..k], p, c)
    {
      EdgesGrow(rows, k);
      ghost var before := table;
      var siblings := Children(table, rows[k].ppid);
      table := table[rows[k].ppid := siblings + [rows[k].pid]];
      assert forall c :: c in siblings + [rows[k].pid] <==> c in siblings || c == rows[k].pid;
      assert forall p :: p != rows[k].ppid ==> Children(table, p) == Children(before, p);
    }
    assert rows[..|rows|] == rows;
  }

  lemma {:induction false} EdgesGrow(rows: seq<Row>, k: nat)
    requires k < |rows|
    ensures forall p, c :: Edge(rows[..k + 1], p, c) <==>
              Edge(rows[..k], p, c) || (rows[k].ppid == p && rows[k].pid == c)
  {
    forall p, c
      ensures Edge(rows[..k + 1], p, c) <==> Edge(rows[..k], p, c) || (rows[k].ppid == p && rows[k].pid == c)
    {
      if Edge(rows[..k], p, c) {
        var i :| 0 <= i < k && rows[..k][i].pid == c && rows[..k][i].ppid == p;
        assert rows[..k + 1][i] == rows[..k][i];
      }
      if rows[k].ppid == p && rows[k].pid == c {
        assert rows[..k + 1][k] == rows[k];
      }
      if Edge(rows[..k + 1], p, c) {
        var i :| 0 <= i < k + 1 && rows[..k + 1][i].pid == c && rows[..k + 1][i].ppid == p;
        assert i < k ==> rows[..k][i] == rows[..k + 1][i];
      }
    }
  }

  // --- The walk ---

  /** What a depth-first walk keeps: everything met is reachable, and every child of a visited pid
      was visited or is still on the stack. */
  ghost predicate Walking(rows: seq<Row>, root: int, visited: set<int>, stack: seq<int>) {
    && (forall x :: x in visited || x in stack ==> Reachable(rows, root, x))
    && (root in visited || root in stack)
    && (forall p, c :: p in visited && Edge(rows, p, c) ==> c in visited || c in stack)
  }

  lemma Visit(rows: seq<Row>, root: int, visited: set<int>, stack: seq<int>, children: seq<int>)
    requires stack != [] && Walking(rows, root, visited, stack)
    requires forall c :: c in children <==> Edge(rows, stack[|stack| - 1], c)
    ensures stack[|stack| - 1] in visited ==> Walking(rows, root, visited, stack[..|stack| - 1])
    ensures Walking(rows, root, visited + {stack[|stack| - 1]}, stack[..|stack| - 1] + children)
  {
    var current, rest := stack[|stack| - 1], stack[..|stack| - 1];
    assert stack == rest + [current];
    assert current in stack;
    forall c | c in children ensures Reachable(rows, root, c) {
      ReachableStep(rows, root, current, c);
    }
  }

  lemma WalkedAll(rows: seq<Row>, root: int, visited: set<int>)
    requires Walking(rows, root, visited, [])
    ensures forall x :: x in visited <==> Reachable(rows, root, x)
  {
    forall x | Reachable(rows, root, x) ensures x in visited {
      var path :| IsPath(rows, path) && path[0] == root && path[|path| - 1] == x;
      ClosedHoldsReachable(rows, root, visited, path);
    }
  }

  lemma WalkStarts(rows: seq<Row>, root: int)
    ensures Walking(rows, root, {}, [root])
  {
  }

  lemma TopIsReachable(rows: seq<Row>, root: int, visited: set<int>, stack: seq<int>)
    requires stack != [] && Walking(rows, root, visited, stack)
    ensures Reachable(rows, root, stack[|stack| - 1])
  {
  }

  /** Every pid there is to visit. */
  function Pids(rows: seq<Row>, root: int): set<int> {
    {root} + set i | 0 <= i < |rows| :: rows[i].pid
  }

  lemma ReachableIsListed(rows: seq<Row>, root: int, pid: int)
    requires Reachable(rows, root, pid)
    ensures pid in Pids(rows, root)
  {
    var path :| IsPath(rows, path) && path[0] == root && path[|path| - 1] == pid;
    if |path| > 1 {
      assert Edge(rows, path[|path| - 2], path[|path| - 1]);
    }
  }

  /** `_descendant_pids`: exactly the pids reachable from the root by child edges. */
  method DescendantPids(rows: seq<Row>, root: int) returns (out: set<int>)
    ensures forall x :: x in out <==> Reachable(rows, root, x)
  {
    var children := ChildrenTable(rows);
    out := {};
    var stack := [root];
    RootIsReachable(rows, root);
    while stack != []
      invariant Walking(rows, root, out, stack)
      decreases Pids(rows, root) - out, |stack|
    {
      var current := stack[|stack| - 1];
      Visit(rows, root, out, stack, Children(children, current));
      ReachableIsListed(rows, root, current);
      stack := stack[..|stack| - 1];
      if current in out { continue; }
      out := out + {current};
      stack := stack + Children(children, current);
    }
    WalkedAll(rows, root, out);
  }

  // --- The climb to the Hermes ancestor ---

  /** `by_pid`: of several rows with the same pid, the last one counts. */
  method RowsByPid(rows: seq<Row>) returns (byPid: map<int, Row>)
    ensures forall p :: p in byPid <==> exists i :: 0 <= i < |rows| && rows[i].pid == p
    ensures forall p :: p in byPid ==> byPid[p].pid == p
    ensures forall p :: p in byPid ==>
              exists i :: 0 <= i < |rows| && rows[i] == byPid[p] && forall j :: i < j < |rows| ==> rows[j].pid != p
  {
    byPid := map[];
    for k := 0 to |rows|
      invariant forall p :: p in byPid <==> exists i :: 0 <= i < k && rows[i].pid == p
      invariant forall p :: p in byPid ==> byPid[p].pid == p
      invariant forall p :: p in byPid ==>
                  exists i :: 0 <= i < k && rows[i] == byPid[p] && forall j :: i < j < k ==> rows[j].pid != p
    {
      byPid := byPid[rows[k].pid := rows[k]];
    }
  }

  /** A chain of known processes, each followed by its parent. */
  ghost predicate IsChain(byPid: map<int, Row>, pid: int, chain: seq<int>) {
    && chain != [] && chain[0] == pid
    && (forall i :: 0 <= i < |chain| ==> chain[i] != 0 && chain[i] in byPid)
    && (forall i :: 0 <= i < |chain| - 1 ==> chain[i + 1] == byPid[chain[i]].ppid)
  }

  /** `root` is the nearest ancestor-or-self of `pid` on the parent chain that is named hermes, or
      `pid` when no chain reaches one. */
  ghost predicate NearestHermes(byPid: map<int, Row>, pid: int, root: int) {
    || (exists chain :: IsChain(byPid, pid, chain) && chain[|chain| - 1] == root && byPid[root].hermes
         && forall i :: 0 <= i < |chain| - 1 ==> !byPid[chain[i]].hermes)
    || (root == pid && forall chain :: IsChain(byPid, pid, chain) ==> !byPid[chain[|chain| - 1]].hermes)
  }

  /** A climb that found nothing has seen every chain. */
  lemma {:induction false} ClimbSawEverything(byPid: map<int, Row>, pid: int, trail: seq<int>, current: int,
                                              chain: seq<int>)
    requires trail != [] ==> trail[0] == pid
    requires trail == [] ==> current == pid
    requires forall i :: 0 <= i < |trail| ==> trail[i] in byPid
    requires forall i :: 0 <= i < |trail| - 1 ==> trail[i + 1] == byPid[trail[i]].ppid
    requires trail != [] ==> current == byPid[trail[|trail| - 1]].ppid
    requires current == 0 || current !in byPid || current in trail
    requires IsChain(byPid, pid, chain)
    ensures chain[|chain| - 1] in trail
  {
    if |chain| > 1 {
      var init := chain[..|chain| - 1];
      ClimbSawEverything(byPid, pid, trail, current, init);
      var i :| 0 <= i < |trail| && trail[i] == chain[|chain| - 2];
      assert chain[|chain| - 1] == byPid[chain[|chain| - 2]].ppid;
      if i < |trail| - 1 {
        assert trail[i + 1] == chain[|chain| - 1];
      }
    } else {
      assert chain[0] == pid;
    }
  }

  method ClimbToHermes(byPid: map<int, Row>, pid: int) returns (root: int)
    ensures NearestHermes(byPid, pid, root)
  {
    root := pid;
    var seen: set<int> := {};
    var current := pid;
    ghost var trail: seq<int> := [];
    while current != 0 && current !in seen
      invariant forall x :: x in seen <==> x in trail
      invariant seen <= byPid.Keys
      invariant trail != [] ==> trail[0] == pid
      invariant trail == [] ==> current == pid
      invariant forall i :: 0 <= i < |trail| ==> trail[i] != 0 && trail[i] in byPid && !byPid[trail[i]].hermes
      invariant forall i :: 0 <= i < |trail| - 1 ==> trail[i + 1] == byPid[trail[i]].ppid
      invariant trail != [] ==> current == byPid[trail[|trail| - 1]].ppid
      decreases byPid.Keys - seen
    {
      if current !in byPid { break; }
      if byPid[current].hermes {
        assert IsChain(byPid, pid, trail + [current]);
        return current;
      }
      seen := seen + {current};
      trail := trail + [current];
      current := byPid[current].ppid;
    }
    forall chain | IsChain(byPid, pid, chain) ensures !byPid[chain[|chain| - 1]].hermes {
      ClimbSawEverything(byPid, pid, trail, current, chain);
    }
  }

  /** `_tree_for_pid`: the known rows reachable from the Hermes root, each once. */
  method TreeForPid(pid: int, rows: seq<Row>) returns (out: seq<Row>, ghost byPid: map<int, Row>, root: int)
    ensures NearestHermes(byPid, pid, root)
    ensures forall p :: p in byPid <==> exists i :: 0 <= i < |rows| && rows[i].pid == p
    ensures forall p :: p in byPid ==>
              exists i :: 0 <= i < |rows| && rows[i] == byPid[p] && forall j :: i < j < |rows| ==> rows[j].pid != p
    ensures forall r :: r in out <==> r.pid in byPid && byPid[r.pid] == r && Reachable(rows, root, r.pid)
    ensures forall i, j :: 0 <= i < j < |out| ==> out[i].pid != out[j].pid
  {
    hide NearestHermes, Walking, Reachable, Pids, Children;
    var table := RowsByPid(rows);
    byPid := table;
    var children := ChildrenTable(rows);
    root := ClimbToHermes(table, pid);
    out := [];
    var stack := [root];
    var visited: set<int> := {};
    WalkStarts(rows, root);
    while stack != []
      invariant Walking(rows, root, visited, stack)
      invariant forall r :: r in out <==> r.pid in visited && r.pid in table && table[r.pid] == r
      invariant forall i, j :: 0 <= i < j < |out| ==> out[i].pid != out[j].pid
      decreases Pids(rows, root) - visited, |stack|
    {
      var item := stack[|stack| - 1];
      TopIsReachable(rows, root, visited, stack);
      Visit(rows, root, visited, stack, Children(children, item));
      ReachableIsListed(rows, root, item);
      stack := stack[..|stack| - 1];
      if item in visited { continue; }
      visited := visited + {item};
      if item in table {
        assert forall i :: 0 <= i < |out| ==> out[i] in out;
        out := out + [table[item]];
      }
      stack := stack + Children(children, item);
    }
    WalkedAll(rows, root, visited);
  }
}
