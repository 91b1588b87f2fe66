/** Validating the graph of a company file, as the program does it: a depth-first walk with a visited
    and an active set. */
module Company {
  import opened Collections
  import opened CompanyGraph
  import opened Options

  datatype CompanyError =
    | EmptyId(index: nat)
    | DuplicateId(id: string)
    | RootCount(found: nat)
    | UnknownParent(id: string, parent: string)
    | LeafHasReports(id: string)
    | ReportCycle(id: string)
    | Unreachable(missing: set<string>)

  // ---------------------------------------------------------------- the checks before the walk

  /** The first empty or repeated id, in declaration order. */
  function BadId(nodes: seq<Node>, k: nat): Option<CompanyError>
    requires k <= |nodes|
    decreases |nodes| - k
  {
    if k == |nodes| then None
    else if nodes[k].id == "" then Some(EmptyId(k + 1))
    else if nodes[k].id in Ids(nodes[..k]) then Some(DuplicateId(nodes[k].id))
    else BadId(nodes, k + 1)
  }

  lemma {:induction false} BadIdExact(nodes: seq<Node>, k: nat)
    requires k <= |nodes| && ProperIds(nodes[..k])
    ensures BadId(nodes, k) == None <==> ProperIds(nodes)
    decreases |nodes| - k
  {
    if k == |nodes| {
      assert nodes[..k] == nodes;
    } else if nodes[k].id != "" && nodes[k].id !in Ids(nodes[..k]) {
      assert nodes[..k + 1] == nodes[..k] + [nodes[k]];
      assert forall i :: 0 <= i < k ==> nodes[..k][i] in nodes[..k];
      BadIdExact(nodes, k + 1);
    } else if nodes[k].id != "" {
      var n :| n in nodes[..k] && n.id == nodes[k].id;
      var i :| 0 <= i < k && nodes[..k][i] == n;
      assert nodes[i].id == nodes[k].id;
    } else {
      assert nodes[k] in nodes;
    }
  }

  function BadParent(nodes: seq<Node>, known: set<string>): Option<CompanyError> {
    if nodes == [] then None
    else if nodes[0].reportTo != "" && nodes[0].reportTo !in known then
      Some(UnknownParent(nodes[0].id, nodes[0].reportTo))
    else BadParent(nodes[1..], known)
  }

  lemma {:induction false} BadParentExact(nodes: seq<Node>, known: set<string>)
    ensures BadParent(nodes, known) == None
      <==> forall n :: n in nodes && n.reportTo != "" ==> n.reportTo in known
  {
    if nodes != [] {
      BadParentExact(nodes[1..], known);
      assert forall n :: n in nodes <==> n == nodes[0] || n in nodes[1..];
    }
  }

  function BadLeaf(nodes: seq<Node>, all: seq<Node>): Option<CompanyError> {
    if nodes == [] then None
    else if nodes[0].agency && Reports(all, nodes[0].id) != [] then Some(LeafHasReports(nodes[0].id))
    else BadLeaf(nodes[1..], all)
  }

  lemma {:induction false} BadLeafExact(nodes: seq<Node>, all: seq<Node>)
    ensures BadLeaf(nodes, all) == None <==> forall n :: n in nodes && n.agency ==> Reports(all, n.id) == []
  {
    if nodes != [] {
      hide Reports;
      BadLeafExact(nodes[1..], all);
      assert forall n :: n in nodes <==> n == nodes[0] || n in nodes[1..];
    }
  }

  // ---------------------------------------------------------------- the walk

  /** The path of active nodes: each one is a report of the one before it. */
  ghost predicate IsPath(nodes: seq<Node>, path: seq<string>) {
    && (forall i :: 0 <= i < |path| ==> path[i] in Ids(nodes))
    && forall i :: 0 < i < |path| ==> ParentOf(nodes, path[i]) == path[i - 1]
  }

  lemma {:induction false} UpThePath(nodes: seq<Node>, path: seq<string>, i: nat, j: nat)
    requires IsPath(nodes, path) && i <= j < |path|
    ensures Up(nodes, path[j], j - i) == path[i]
    decreases j - i
  {
    if i < j {
      UpThePath(nodes, path, i, j - 1);
    }
  }

  /** A report of the last active node that is active itself closes a loop. */
  lemma ActiveLoop(nodes: seq<Node>, path: seq<string>, x: string)
    requires IsPath(nodes, path) && path != [] && x in path && x in Ids(nodes)
    requires ParentOf(nodes, x) == path[|path| - 1]
    ensures Looped(nodes, x)
  {
    var i :| 0 <= i < |path| && path[i] == x;
    UpThePath(nodes, path, i, |path| - 1);
    assert Up(nodes, x, |path| - i) == Up(nodes, path[|path| - 1], |path| - 1 - i);
  }

  /** Finished nodes in the order in which they were finished: every report comes before. */
  ghost predicate PostOrder(nodes: seq<Node>, finish: seq<string>) {
    && (forall i :: 0 <= i < |finish| ==> finish[i] in Ids(nodes))
    && forall i, c :: 0 <= i < |finish| && c in Reports(nodes, finish[i]) ==> c in finish[..i]
  }

  /** The two sets of the walk, and the sequences that record the order in which ids entered them. */
  ghost predicate Sound(
    nodes: seq<Node>, visited: set<string>, active: set<string>, path: seq<string>, finish: seq<string>)
  {
    && (forall x :: x in active <==> x in path) && IsPath(nodes, path)
    && (forall x :: x in visited <==> x in finish) && PostOrder(nodes, finish)
  }

  lemma Enter(
    nodes: seq<Node>, visited: set<string>, active: set<string>, path: seq<string>, finish: seq<string>, id: string)
    requires Sound(nodes, visited, active, path, finish) && id in Ids(nodes) && id !in active
    requires path != [] ==> ParentOf(nodes, id) == path[|path| - 1]
    ensures Sound(nodes, visited, active + {id}, path + [id], finish)
    ensures |Ids(nodes) - (active + {id})| < |Ids(nodes) - active|
  {
    hide PostOrder, Ids, IsPath;
    PathSnoc(nodes, path, id);
    Fewer(Ids(nodes), active, id);
  }

  lemma PathSnoc(nodes: seq<Node>, path: seq<string>, id: string)
    requires IsPath(nodes, path) && id in Ids(nodes)
    requires path != [] ==> ParentOf(nodes, id) == path[|path| - 1]
    ensures IsPath(nodes, path + [id])
  {
    hide Ids, ParentOf;
  }

  lemma Leave(
    nodes: seq<Node>, before: set<string>, finish0: seq<string>,
    visited: set<string>, active: set<string>, path: seq<string>, finish: seq<string>, id: string)
    requires Sound(nodes, visited, active + {id}, path + [id], finish) && id !in active && id in Ids(nodes)
    requires forall c :: c in Reports(nodes, id) ==> c in visited
    requires Sound(nodes, before, active, path, finish0)
    ensures Sound(nodes, visited + {id}, active, path, finish + [id])
  {
    hide PostOrder, Ids, ParentOf, Reports;
    FinishNode(nodes, finish, id);
    assert forall i :: 0 <= i < |path| ==> path[i] == (path + [id])[i];
  }

  lemma FinishNode(nodes: seq<Node>, finish: seq<string>, id: string)
    requires PostOrder(nodes, finish) && id in Ids(nodes)
    requires forall c :: c in Reports(nodes, id) ==> c in finish
    ensures PostOrder(nodes, finish + [id])
  {
    hide Reports, Ids;
    var all := finish + [id];
    forall i, c | 0 <= i < |all| && c in Reports(nodes, all[i]) ensures c in all[..i] {
      if i < |finish| {
        assert all[..i] == finish[..i];
      } else {
        assert all[..i] == finish;
      }
    }
  }

  class Walk {
    const nodes: seq<Node>
    var visited: set<string>
    var active: set<string>
    ghost var path: seq<string>
    ghost var finish: seq<string>

    ghost predicate Valid()
      reads this
    {
      Sound(nodes, visited, active, path, finish)
    }

    constructor (nodes: seq<Node>)
      ensures this.nodes == nodes && Valid() && visited == {} && active == {} && path == []
    {
      this.nodes := nodes;
      visited, active := {}, {};
      path, finish := [], [];
    }

    /** Visits an id and everything below it; returns the id at which a cycle was met. */
    method Visit(id: string) returns (cycle: Option<string>)
      requires Valid() && DistinctIds(nodes) && id in Ids(nodes)
      requires path != [] ==> ParentOf(nodes, id) == path[|path| - 1]
      modifies this
      ensures cycle.None? ==>
        Valid() && id in visited && old(visited) <= visited && path == old(path) && active == old(active)
      ensures cycle.Some? ==> Looped(nodes, cycle.value)
      decreases |Ids(nodes) - active|
    {
      hide Reports, ParentOf, Sound, Ids, Looped;
      if id in active {
        ActiveAt(nodes, visited, active, path, finish, id);
        return Some(id);
      }
      if id in visited {
        return None;
      }
      ghost var (path0, active0) := (path, active);
      Enter(nodes, visited, active, path, finish, id);
      active := active + {id};
      path := path + [id];
      var children := Reports(nodes, id);
      var i := 0;
      while i < |children|
        invariant i <= |children|
        invariant Valid() && path == path0 + [id] && active == active0 + {id} && old(visited) <= visited
        invariant forall j :: 0 <= j < i ==> children[j] in visited
      {
        ReportsAre(nodes, id, children[i]);
        cycle := Visit(children[i]);
        if cycle.Some? {
          return;
        }
        i := i + 1;
      }
      assert active0 + {id} - {id} == active0;
      Leave(nodes, old(visited), old(finish), visited, active0, path0, finish, id);
      assert path[..|path| - 1] == path0 && active - {id} == active0;
      active := active - {id};
      path := path[..|path| - 1];
      visited := visited + {id};
      finish := finish + [id];
      cycle := None;
    }
  }

  lemma ActiveAt(
    nodes: seq<Node>, visited: set<string>, active: set<string>, path: seq<string>, finish: seq<string>, id: string)
    requires Sound(nodes, visited, active, path, finish) && id in Ids(nodes) && id in active
    requires path != [] ==> ParentOf(nodes, id) == path[|path| - 1]
    ensures Looped(nodes, id)
  {
    ActiveLoop(nodes, path, id);
  }

  // ---------------------------------------------------------------- accepting a company

  /** In a finished walk every id but the root has its parent after it, so its chain ends at the root. */
  lemma {:induction false} FinishedRooted(nodes: seq<Node>, finish: seq<string>, i: nat)
    requires ProperIds(nodes) && |Roots(nodes)| == 1 && ParentsKnown(nodes)
    requires PostOrder(nodes, finish) && (forall x :: x in Ids(nodes) ==> x in finish)
    requires i < |finish| && finish[i] !in finish[..i]
    ensures Rooted(nodes, finish[i], Roots(nodes)[0].id)
    decreases |finish| - i
  {
    hide PostOrder, ProperIds, Ids, ParentOf;
    var (x, root) := (finish[i], Roots(nodes)[0].id);
    if x == root {
      assert Up(nodes, x, 0) == root;
    } else {
      var j := ParentLater(nodes, finish, i);
      FinishedRooted(nodes, finish, j);
      var k: nat :| Up(nodes, finish[j], k) == root;
      assert Up(nodes, x, k + 1) == root;
    }
  }

  /** The first place of the parent of an id lies after the first place of the id. */
  lemma ParentLater(nodes: seq<Node>, finish: seq<string>, i: nat) returns (j: nat)
    requires ProperIds(nodes) && |Roots(nodes)| == 1 && ParentsKnown(nodes)
    requires PostOrder(nodes, finish) && (forall x :: x in Ids(nodes) ==> x in finish)
    requires i < |finish| && finish[i] !in finish[..i] && finish[i] != Roots(nodes)[0].id
    ensures i < j < |finish| && finish[j] == ParentOf(nodes, finish[i]) && finish[j] !in finish[..j]
  {
    hide Ids, Reports;
    var p := ParentOf(nodes, finish[i]);
    ParentIsNode(nodes, finish[i]);
    j := FirstPlace(finish, p);
    ReportsAre(nodes, p, finish[i]);
    assert finish[i] in finish[..j];
    PlaceBelow(finish, finish[i], i, j);
  }

  lemma PlaceBelow(s: seq<string>, x: string, i: nat, j: nat)
    requires i < |s| && j <= |s| && x in s[..j] && x !in s[..i]
    ensures i < j
  {
    assert forall k :: 0 <= k < i ==> s[..i][k] == s[k] && s[k] in s[..i];
    var k :| 0 <= k < j && s[..j][k] == x;
  }

  lemma {:induction false} FirstPlace(s: seq<string>, x: string) returns (j: nat)
    requires x in s
    ensures j < |s| && s[j] == x && x !in s[..j]
  {
    if s[0] == x {
      j := 0;
    } else {
      var k := FirstPlace(s[1..], x);
      j := k + 1;
      assert s[..j] == [s[0]] + s[1..][..k];
    }
  }

  lemma AllFinishedRooted(nodes: seq<Node>, finish: seq<string>, x: string)
    requires ProperIds(nodes) && |Roots(nodes)| == 1 && ParentsKnown(nodes)
    requires PostOrder(nodes, finish) && (forall y :: y in Ids(nodes) ==> y in finish) && x in Ids(nodes)
    ensures Rooted(nodes, x, Roots(nodes)[0].id)
  {
    var i := FirstPlace(finish, x);
    FinishedRooted(nodes, finish, i);
  }

  /** A loop means that some chain does not end at the root. */
  lemma LoopRefutesTree(nodes: seq<Node>, x: string)
    requires Looped(nodes, x)
    ensures !IsCompanyTree(nodes)
  {
    if IsCompanyTree(nodes) {
      TreeNotLooped(nodes, x);
    }
  }

  /** What the checks before the walk say, in their order. */
  function EarlyError(nodes: seq<Node>): Option<CompanyError> {
    if BadId(nodes, 0).Some? then BadId(nodes, 0)
    else if |Roots(nodes)| != 1 then Some(RootCount(|Roots(nodes)|))
    else if BadParent(nodes, Ids(nodes)).Some? then BadParent(nodes, Ids(nodes))
    else BadLeaf(nodes, nodes)
  }

  ghost predicate EarlyChecks(nodes: seq<Node>) {
    ProperIds(nodes) && |Roots(nodes)| == 1 && ParentsKnown(nodes) && LeavesHaveNoReports(nodes)
  }

  lemma EarlyExact(nodes: seq<Node>)
    ensures EarlyError(nodes) == None <==> EarlyChecks(nodes)
  {
    hide BadId, BadParent, BadLeaf, ProperIds, Reports;
    assert ProperIds(nodes[..0]) by { NoNodes(nodes); }
    BadIdExact(nodes, 0);
    BadParentExact(nodes, Ids(nodes));
    BadLeafExact(nodes, nodes);
  }

  lemma NoNodes(nodes: seq<Node>)
    ensures ProperIds(nodes[..0])
  {
  }

  /** The graph part of loading a company: it accepts exactly the rooted trees whose agencies have no
      reports. A node outside the root's tree always ends in the cycle error, so the last error of
      the program is never raised. */
  method LoadCompany(nodes: seq<Node>) returns (bad: Option<CompanyError>)
    ensures bad == None <==> IsCompanyTree(nodes)
    ensures EarlyError(nodes).Some? ==> bad == EarlyError(nodes)
    ensures EarlyError(nodes).None? && bad.Some? ==> bad.value.ReportCycle? && Looped(nodes, bad.value.id)
  {
    EarlyExact(nodes);
    hide EarlyChecks, EarlyError, Sound, Looped, ProperIds, Ids;
    bad := EarlyError(nodes);
    if bad.Some? {
      TreePassesEarly(nodes);
      return;
    }
    assert |Roots(nodes)| == 1 && DistinctIds(nodes) && ParentsKnown(nodes) by { EarlyFacts(nodes); }
    RootFactsOf(nodes);
    var walk := new Walk(nodes);
    var cycle := walk.Visit(Roots(nodes)[0].id);
    if cycle.Some? {
      LoopRefutesTree(nodes, cycle.value);
      return Some(ReportCycle(cycle.value));
    }
    var i := 0;
    while i < |nodes|
      invariant i <= |nodes| && walk.nodes == nodes && walk.Valid() && walk.path == []
      invariant forall j :: 0 <= j < i ==> nodes[j].id in walk.visited
    {
      NodeHasId(nodes, i);
      if nodes[i].id !in walk.visited {
        cycle := walk.Visit(nodes[i].id);
        if cycle.Some? {
          LoopRefutesTree(nodes, cycle.value);
          return Some(ReportCycle(cycle.value));
        }
      }
      i := i + 1;
    }
    WalkDone(nodes, walk.visited, walk.active, walk.path, walk.finish);
    var missing := Ids(nodes) - walk.visited;
    if |walk.visited| != |Ids(nodes)| {
      bad := Some(Unreachable(missing));
    }
  }

  lemma TreePassesEarly(nodes: seq<Node>)
    ensures IsCompanyTree(nodes) ==> EarlyChecks(nodes)
  {
  }

  lemma EarlyFacts(nodes: seq<Node>)
    requires EarlyChecks(nodes)
    ensures |Roots(nodes)| == 1 && DistinctIds(nodes) && ParentsKnown(nodes)
  {
  }

  lemma RootFactsOf(nodes: seq<Node>)
    requires EarlyChecks(nodes)
    ensures Roots(nodes)[0].id in Ids(nodes)
  {
    RootFacts(nodes);
  }

  lemma NodeHasId(nodes: seq<Node>, i: nat)
    requires i < |nodes|
    ensures nodes[i].id in Ids(nodes)
  {
    assert nodes[i] in nodes;
  }

  /** When every id has been visited without meeting a cycle, the company is a tree and nothing is
      missing. */
  lemma WalkDone(nodes: seq<Node>, visited: set<string>, active: set<string>, path: seq<string>, finish: seq<string>)
    requires EarlyChecks(nodes) && Sound(nodes, visited, active, path, finish)
    requires forall j :: 0 <= j < |nodes| ==> nodes[j].id in visited
    ensures IsCompanyTree(nodes) && visited == Ids(nodes)
  {
    forall x | x in Ids(nodes) ensures x in finish {
      var n :| n in nodes && n.id == x;
    }
    forall x | x in visited ensures x in Ids(nodes) {
      var i :| 0 <= i < |finish| && finish[i] == x;
    }
    hide PostOrder, IsPath, Ids, Rooted;
    forall x | x in Ids(nodes) ensures Rooted(nodes, x, Roots(nodes)[0].id) {
      AllFinishedRooted(nodes, finish, x);
    }
  }
}
