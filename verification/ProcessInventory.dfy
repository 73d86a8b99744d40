/** The breadth-first inventory of a process tree, against reachability in the process table. */
module ProcessInventory {
  import opened Wrappers

  datatype Identity = Identity(pid: int, startTime: nat)

  /** The parent process ID of every live process. */
  type Table = map<Identity, int>

  predicate IsChild(table: Table, parent: Identity, child: Identity) {
    child in table && table[child] == parent.pid
  }

  /** `p` is reached from `root` in at most `n` parent-to-child steps. */
  ghost predicate Within(table: Table, root: Identity, p: Identity, n: nat)
    decreases n
  {
    p == root || (n > 0 && exists parent :: Within(table, root, parent, n - 1) && IsChild(table, parent, p))
  }

  /** The reflexive-transitive closure of being a child. */
  ghost predicate Descends(table: Table, root: Identity, p: Identity) {
    exists n: nat :: Within(table, root, p, n)
  }

  ghost function Tree(table: Table, root: Identity): set<Identity> {
    set p | p in table && Descends(table, root, p)
  }

  lemma ChildDescends(table: Table, root: Identity, parent: Identity, child: Identity)
    requires Descends(table, root, parent) && IsChild(table, parent, child)
    ensures Descends(table, root, child)
  {
    var n: nat :| Within(table, root, parent, n);
    assert Within(table, root, child, n + 1);
  }

  lemma RootDescends(table: Table, root: Identity)
    ensures Descends(table, root, root)
  {
    assert Within(table, root, root, 0);
  }

  /** A set that holds the root and is closed under children holds the whole tree. */
  lemma {:induction false} ClosedHoldsWithin(table: Table, root: Identity, found: set<Identity>, p: Identity, n: nat)
    requires root in found
    requires (forall parent, child :: parent in found && IsChild(table, parent, child) ==> child in found)
    requires Within(table, root, p, n)
    ensures p in found
    decreases n
  {
    if p != root {
      var parent :| Within(table, root, parent, n - 1) && IsChild(table, parent, p);
      ClosedHoldsWithin(table, root, found, parent, n - 1);
    }
  }

  lemma ClosedIsTree(table: Table, root: Identity, found: set<Identity>)
    requires root in table && root in found && found <= Tree(table, root)
    requires forall parent, child :: parent in found && IsChild(table, parent, child) ==> child in found
    ensures found == Tree(table, root)
  {
    forall p | p in Tree(table, root)
      ensures p in found
    {
      var n: nat :| Within(table, root, p, n);
      ClosedHoldsWithin(table, root, found, p, n);
    }
  }

  lemma SubsetSize(a: set<Identity>, b: set<Identity>)
    requires a <= b
    ensures |a| <= |b|
  {
    assert |b - a| == |b| - |a|;
  }

  /** The children of each process, grouped by parent process ID. */
  ghost predicate Groups(table: Table, done: set<Identity>, children: map<int, seq<Identity>>) {
    && (forall c :: c in done && c in table ==> table[c] in children && c in children[table[c]])
    && (forall pid, i :: pid in children && 0 <= i < |children[pid]| ==>
          children[pid][i] in table && table[children[pid][i]] == pid)
  }

  method GroupByParent(table: Table) returns (children: map<int, seq<Identity>>)
    ensures Groups(table, table.Keys, children)
  {
    children := map[];
    var left := table.Keys;
    while left != {}
      invariant left <= table.Keys && Groups(table, table.Keys - left, children)
      decreases |left|
    {
      var c :| c in left;
      var siblings := if table[c] in children then children[table[c]] else [];
      assert c in siblings + [c];
      children := children[table[c] := siblings + [c]];
      left := left - {c};
    }
  }

  /** Every child of a found process is found, or its parent still waits in the queue. */
  ghost predicate Covered(table: Table, found: set<Identity>, queue: seq<int>) {
    forall p, c :: p in found && IsChild(table, p, c) ==> c in found || p.pid in queue
  }

  ghost predicate Queued(found: set<Identity>, queue: seq<int>) {
    forall pid :: pid in queue ==> exists p :: p in found && p.pid == pid
  }

  /** Adds the children not seen yet, and queues them, until the bound is exceeded. */
  method Expand(
    table: Table, ghost root: Identity, siblings: seq<Identity>, found: set<Identity>, queue: seq<int>, maxProcs: nat)
    returns (ok: bool, found': set<Identity>, queue': seq<int>)
    requires |found| <= maxProcs && Queued(found, queue)
    requires found <= Tree(table, root) && forall c :: c in siblings ==> c in Tree(table, root)
    ensures found <= found' <= Tree(table, root) && (ok <==> |found'| <= maxProcs)
    ensures ok ==> forall c :: c in siblings ==> c in found'
    ensures queue <= queue' && Queued(found', queue')
    ensures forall c :: c in found' && c !in found ==> c.pid in queue'
    ensures found' == found ==> queue' == queue
  {
    found', queue' := found, queue;
    for k := 0 to |siblings|
      invariant found <= found' <= Tree(table, root) && |found'| <= maxProcs
      invariant forall i :: 0 <= i < k ==> siblings[i] in found'
      invariant queue <= queue' && Queued(found', queue')
      invariant forall c :: c in found' && c !in found ==> c.pid in queue'
      invariant found' == found ==> queue' == queue
    {
      var child := siblings[k];
      if child !in found' {
        found', queue' := found' + {child}, queue' + [child.pid];
        if |found'| > maxProcs {
          return false, found', queue';
        }
      }
    }
    return true, found', queue';
  }

  lemma StillCovered(
    table: Table, found: set<Identity>, queue: seq<int>, siblings: seq<Identity>, found': set<Identity>,
    queue': seq<int>)
    requires queue != [] && Covered(table, found, queue) && found <= found' && queue[1..] <= queue'
    requires forall p, c :: p in found && p.pid == queue[0] && IsChild(table, p, c) ==> c in siblings
    requires forall c :: c in siblings ==> c in found'
    requires forall c :: c in found' && c !in found ==> c.pid in queue'
    ensures Covered(table, found', queue')
  {
    forall p, c | p in found' && IsChild(table, p, c)
      ensures c in found' || p.pid in queue'
    {
      if p in found && c !in found' {
        assert p.pid in queue && p.pid != queue[0];
        assert p.pid in queue[1..];
      }
    }
  }

  /** The children of the next process in the queue belong to the tree. */
  lemma SiblingsInTree(
    table: Table, root: Identity, children: map<int, seq<Identity>>, found: set<Identity>, parent: Identity)
    requires Groups(table, table.Keys, children) && found <= Tree(table, root) && parent in found
    requires parent.pid in children
    ensures forall c :: c in children[parent.pid] ==> c in Tree(table, root)
  {
    forall c | c in children[parent.pid]
      ensures c in Tree(table, root)
    {
      assert IsChild(table, parent, c);
      ChildDescends(table, root, parent, c);
    }
  }

  /**
    Fails exactly when the root is not in the table or its tree exceeds the bound; otherwise returns
    the root and all its descendants.
  */
  method Inventory(table: Table, root: Identity, maxProcs: nat) returns (r: Option<set<Identity>>)
    requires maxProcs > 0
    ensures r.Some? <==> root in table && |Tree(table, root)| <= maxProcs
    ensures r.Some? ==> r.value == Tree(table, root)
  {
    if root !in table {
      return None;
    }
    var children := GroupByParent(table);
    var found := {root};
    var queue := [root.pid];
    RootDescends(table, root);
    while |queue| > 0
      invariant root in found && found <= Tree(table, root) && |found| <= maxProcs
      invariant Queued(found, queue) && Covered(table, found, queue)
      decreases |table.Keys - found|, |queue|
    {
      var parent := queue[0];
      assert parent in queue;
      ghost var p :| p in found && p.pid == parent;
      var siblings := if parent in children then children[parent] else [];
      if parent in children {
        SiblingsInTree(table, root, children, found, p);
      }
      assert forall pid :: pid in queue[1..] ==> pid in queue;
      var ok, found', queue' := Expand(table, root, siblings, found, queue[1..], maxProcs);
      if !ok {
        SubsetSize(found', Tree(table, root));
        return None;
      }
      StillCovered(table, found, queue, siblings, found', queue');
      SubsetSize(table.Keys - found', table.Keys - found);
      if found' != found {
        var c :| c in found' && c !in found;
        SubsetSize(table.Keys - found', table.Keys - found - {c});
      }
      found, queue := found', queue';
    }
    ClosedIsTree(table, root, found);
    return Some(found);
  }
}
