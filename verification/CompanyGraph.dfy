/** The organization graph of a company file: what a rooted company tree is, and the laws of its
    report-to chains. */
module CompanyGraph {
  import opened Collections

  /** A declared node; the root reports to the empty string. */
  datatype Node = Node(id: string, reportTo: string, agency: bool)

  predicate DistinctIds(nodes: seq<Node>) {
    forall i, j :: 0 <= i < j < |nodes| ==> nodes[i].id != nodes[j].id
  }

  function Ids(nodes: seq<Node>): set<string> {
    set n | n in nodes :: n.id
  }

  /** Nodes with non-empty, unique ids. */
  predicate ProperIds(nodes: seq<Node>) {
    DistinctIds(nodes) && forall n :: n in nodes ==> n.id != ""
  }

  function Roots(nodes: seq<Node>): seq<Node> {
    if nodes == [] then []
    else (if nodes[0].reportTo == "" then [nodes[0]] else []) + Roots(nodes[1..])
  }

  predicate ParentsKnown(nodes: seq<Node>) {
    forall n :: n in nodes && n.reportTo != "" ==> n.reportTo in Ids(nodes)
  }

  /** The ids of the nodes that report to `p`, in declaration order. */
  function Reports(nodes: seq<Node>, p: string): seq<string> {
    if nodes == [] then []
    else (if nodes[0].reportTo == p then [nodes[0].id] else []) + Reports(nodes[1..], p)
  }

  predicate LeavesHaveNoReports(nodes: seq<Node>) {
    forall n :: n in nodes && n.agency ==> Reports(nodes, n.id) == []
  }

  /** Whom an id reports to; the empty string for the root and for anything unknown. */
  function ParentOf(nodes: seq<Node>, x: string): string {
    if nodes == [] then "" else if nodes[0].id == x then nodes[0].reportTo else ParentOf(nodes[1..], x)
  }

  /** The id `k` steps up the report-to chain. */
  function Up(nodes: seq<Node>, x: string, k: nat): string
    decreases k
  {
    if k == 0 then x else Up(nodes, ParentOf(nodes, x), k - 1)
  }

  ghost predicate Rooted(nodes: seq<Node>, x: string, root: string) {
    exists k: nat :: Up(nodes, x, k) == root
  }

  /** `x` reports to itself, through one or more others or directly. */
  ghost predicate Looped(nodes: seq<Node>, x: string) {
    x in Ids(nodes) && exists k: nat :: k > 0 && Up(nodes, x, k) == x
  }

  /** One root, known parents, agencies only at the leaves, and every chain ends at the root. */
  ghost predicate IsCompanyTree(nodes: seq<Node>) {
    && ProperIds(nodes) && |Roots(nodes)| == 1 && ParentsKnown(nodes) && LeavesHaveNoReports(nodes)
    && forall x :: x in Ids(nodes) ==> Rooted(nodes, x, Roots(nodes)[0].id)
  }

  // ---------------------------------------------------------------- parents and children

  lemma {:induction false} ParentOfNode(nodes: seq<Node>, n: Node)
    requires DistinctIds(nodes) && n in nodes
    ensures ParentOf(nodes, n.id) == n.reportTo
  {
    if nodes[0] != n {
      var i :| 0 < i < |nodes| && nodes[i] == n;
      assert n in nodes[1..] && nodes[0].id != nodes[i].id;
      ParentOfNode(nodes[1..], n);
    }
  }

  lemma {:induction false} ParentOfUnknown(nodes: seq<Node>, x: string)
    requires x !in Ids(nodes)
    ensures ParentOf(nodes, x) == ""
  {
    if nodes != [] {
      assert nodes[0] in nodes;
      ParentOfUnknown(nodes[1..], x);
    }
  }

  lemma {:induction false} ReportsExact(nodes: seq<Node>, p: string, c: string)
    ensures c in Reports(nodes, p) <==> exists n :: n in nodes && n.id == c && n.reportTo == p
  {
    if nodes != [] {
      ReportsExact(nodes[1..], p, c);
      assert forall n :: n in nodes <==> n == nodes[0] || n in nodes[1..];
    }
  }

  /** The places in the file of the nodes that report to `p`, in order. */
  ghost predicate ReportPlaces(nodes: seq<Node>, p: string, places: seq<nat>) {
    Ascending(places) && forall k: nat :: k in places <==> k < |nodes| && nodes[k].reportTo == p
  }

  lemma {:induction false} ReportsJoin(a: seq<Node>, b: seq<Node>, p: string)
    ensures Reports(a + b, p) == Reports(a, p) + Reports(b, p)
  {
    if a == [] {
      assert a + b == b;
    } else {
      assert (a + b)[1..] == a[1..] + b;
      ReportsJoin(a[1..], b, p);
    }
  }

  /** The reports are the ids at those places. */
  lemma {:induction false} ReportsAt(nodes: seq<Node>, p: string, hit: Node -> bool)
    requires forall n :: hit(n) <==> n.reportTo == p
    ensures |PlacesOf(nodes, hit)| == |Reports(nodes, p)|
    ensures forall j :: 0 <= j < |Reports(nodes, p)| ==>
              PlacesOf(nodes, hit)[j] < |nodes| && Reports(nodes, p)[j] == nodes[PlacesOf(nodes, hit)[j]].id
  {
    if nodes != [] {
      var k := |nodes| - 1;
      ReportsAt(nodes[..k], p, hit);
      ReportsJoin(nodes[..k], [nodes[k]], p);
      assert nodes[..k] + [nodes[k]] == nodes && [nodes[k]][1..] == [];
      assert Reports([nodes[k]], p) == if nodes[k].reportTo == p then [nodes[k].id] else [];
    }
  }

  lemma ReportsInOrder(nodes: seq<Node>, p: string) returns (places: seq<nat>)
    ensures ReportPlaces(nodes, p, places) && |places| == |Reports(nodes, p)|
    ensures forall j :: 0 <= j < |places| ==> places[j] < |nodes| && Reports(nodes, p)[j] == nodes[places[j]].id
  {
    var hit := (n: Node) => n.reportTo == p;
    places := PlacesOf(nodes, hit);
    PlacesAre(nodes, hit);
    ReportsAt(nodes, p, hit);
  }

  /** The reports of `p` are exactly the ids whose parent is `p`. */
  lemma ReportsAre(nodes: seq<Node>, p: string, c: string)
    requires DistinctIds(nodes)
    ensures c in Reports(nodes, p) <==> c in Ids(nodes) && ParentOf(nodes, c) == p
  {
    ReportsExact(nodes, p, c);
    if c in Ids(nodes) {
      var n :| n in nodes && n.id == c;
      ParentOfNode(nodes, n);
      if c in Reports(nodes, p) {
        var m :| m in nodes && m.id == c && m.reportTo == p;
        ParentOfNode(nodes, m);
      }
    }
  }

  lemma {:induction false} UpPlus(nodes: seq<Node>, x: string, a: nat, b: nat)
    ensures Up(nodes, x, a + b) == Up(nodes, Up(nodes, x, a), b)
    decreases a
  {
    if a > 0 {
      UpPlus(nodes, ParentOf(nodes, x), a - 1, b);
    }
  }

  lemma {:induction false} UpFromNowhere(nodes: seq<Node>, k: nat)
    requires ProperIds(nodes)
    ensures Up(nodes, "", k) == ""
    decreases k
  {
    if k > 0 {
      assert "" !in Ids(nodes);
      ParentOfUnknown(nodes, "");
      UpFromNowhere(nodes, k - 1);
    }
  }

  lemma {:induction false} LoopRepeats(nodes: seq<Node>, x: string, m: nat, j: nat)
    requires Up(nodes, x, m) == x
    ensures Up(nodes, x, j * m) == x
    decreases j
  {
    if j == 0 {
      assert j * m == 0;
    } else {
      LoopRepeats(nodes, x, m, j - 1);
      assert j * m == m + (j - 1) * m;
      UpPlus(nodes, x, m, (j - 1) * m);
    }
  }

  /** Above the root there is nothing. */
  lemma BeyondRoot(nodes: seq<Node>, x: string, root: string, k: nat, n: nat)
    requires ProperIds(nodes) && ParentOf(nodes, root) == "" && Up(nodes, x, k) == root && n > k
    ensures Up(nodes, x, n) == ""
  {
    UpPlus(nodes, x, k, n - k);
    UpFromNowhere(nodes, n - k - 1);
  }

  /** A chain that ends at the root goes through no loop. */
  lemma RootedNotLooped(nodes: seq<Node>, x: string, root: string)
    requires ProperIds(nodes) && ParentOf(nodes, root) == "" && Rooted(nodes, x, root)
    ensures !Looped(nodes, x)
  {
    if Looped(nodes, x) {
      var m: nat :| m > 0 && Up(nodes, x, m) == x;
      var k: nat :| Up(nodes, x, k) == root;
      MoreSteps(k + 1, m);
      BeyondRoot(nodes, x, root, k, (k + 1) * m);
      LoopRepeats(nodes, x, m, k + 1);
    }
  }

  lemma MoreSteps(k: nat, m: nat)
    requires m > 0
    ensures k * m >= k
  {
  }

  lemma {:induction false} RootsAre(nodes: seq<Node>)
    ensures forall n :: n in Roots(nodes) <==> n in nodes && n.reportTo == ""
  {
    if nodes != [] {
      RootsAre(nodes[1..]);
      assert forall n :: n in nodes <==> n == nodes[0] || n in nodes[1..];
    }
  }

  lemma RootFacts(nodes: seq<Node>)
    requires ProperIds(nodes) && |Roots(nodes)| == 1
    ensures var root := Roots(nodes)[0];
      && root in nodes && root.reportTo == "" && ParentOf(nodes, root.id) == ""
      && forall x :: x in Ids(nodes) && ParentOf(nodes, x) == "" ==> x == root.id
  {
    var root := Roots(nodes)[0];
    RootsAre(nodes);
    assert root in Roots(nodes);
    ParentOfNode(nodes, root);
    forall x | x in Ids(nodes) && ParentOf(nodes, x) == "" ensures x == root.id {
      var n :| n in nodes && n.id == x;
      ParentOfNode(nodes, n);
      assert n in Roots(nodes);
    }
  }

  /** The parent of a node other than the root is a node. */
  lemma ParentIsNode(nodes: seq<Node>, x: string)
    requires ProperIds(nodes) && |Roots(nodes)| == 1 && ParentsKnown(nodes) && x in Ids(nodes)
    ensures x == Roots(nodes)[0].id || ParentOf(nodes, x) in Ids(nodes)
  {
    RootFacts(nodes);
    var n :| n in nodes && n.id == x;
    ParentOfNode(nodes, n);
  }

  /** In a tree two different reports of one node have no common id below them. */
  lemma SubtreesDisjoint(nodes: seq<Node>, p: string, c: string, d: string, x: string, i: nat, j: nat)
    requires IsCompanyTree(nodes) && p in Ids(nodes)
    requires ParentOf(nodes, c) == p && ParentOf(nodes, d) == p
    requires Up(nodes, x, i) == c && Up(nodes, x, j) == d
    ensures c == d
  {
    hide IsCompanyTree, Looped, Ids;
    TreeNotLooped(nodes, p);
    if i < j {
      UpPlus(nodes, x, i, j - i);
      LoopAt(nodes, p, c, d, j - i);
    } else if j < i {
      UpPlus(nodes, x, j, i - j);
      LoopAt(nodes, p, d, c, i - j);
    }
  }

  lemma TreeNotLooped(nodes: seq<Node>, p: string)
    requires IsCompanyTree(nodes) && p in Ids(nodes)
    ensures !Looped(nodes, p)
  {
    RootFacts(nodes);
    RootedNotLooped(nodes, p, Roots(nodes)[0].id);
  }

  lemma LoopAt(nodes: seq<Node>, p: string, c: string, d: string, k: nat)
    requires p in Ids(nodes) && ParentOf(nodes, c) == p && ParentOf(nodes, d) == p
    requires k > 0 && Up(nodes, c, k) == d
    ensures Looped(nodes, p)
  {
    UpPlus(nodes, p, k - 1, 1);
    assert Up(nodes, d, 1) == Up(nodes, p, 0);
    assert Up(nodes, p, k) == p;
  }
}
