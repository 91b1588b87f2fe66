/** What loading and compiling a company promise in terms of the declared nodes alone: which error is reported,
    and in which order siblings are written. */
module CompanyLaws {
  import opened Collections
  import opened Company
  import opened CompanyCompiler
  import opened CompanyGraph
  import opened Options

  // ---------------------------------------------------------------- the errors before the walk

  /** The first node whose id is empty or repeats an earlier one. */
  predicate BadIdAt(nodes: seq<Node>, k: nat) {
    && k < |nodes|
    && (nodes[k].id == "" || exists j :: 0 <= j < k && nodes[j].id == nodes[k].id)
    && forall j :: 0 <= j < k ==> nodes[j].id != "" && forall i :: 0 <= i < j ==> nodes[i].id != nodes[j].id
  }

  predicate Known(nodes: seq<Node>, parent: string) {
    exists i :: 0 <= i < |nodes| && nodes[i].id == parent
  }

  predicate Orphan(nodes: seq<Node>, k: nat) {
    k < |nodes| && nodes[k].reportTo != "" && !Known(nodes, nodes[k].reportTo)
  }

  predicate BusyAgency(nodes: seq<Node>, k: nat) {
    k < |nodes| && nodes[k].agency && exists i :: 0 <= i < |nodes| && nodes[i].reportTo == nodes[k].id
  }

  predicate FirstOrphan(nodes: seq<Node>, k: nat) {
    Orphan(nodes, k) && forall j: nat :: j < k ==> !Orphan(nodes, j)
  }

  predicate FirstBusyAgency(nodes: seq<Node>, k: nat) {
    BusyAgency(nodes, k) && forall j: nat :: j < k ==> !BusyAgency(nodes, j)
  }

  lemma {:induction false} BadIdFrom(nodes: seq<Node>, k: nat, from: nat)
    requires BadIdAt(nodes, k) && from <= k
    ensures BadId(nodes, from) == Some(if nodes[k].id == "" then EmptyId(k + 1) else DuplicateId(nodes[k].id))
    decreases k - from
  {
    EarlierId(nodes, from);
    if from < k {
      BadIdFrom(nodes, k, from + 1);
    }
  }

  lemma EarlierId(nodes: seq<Node>, k: nat)
    requires k < |nodes|
    ensures nodes[k].id in Ids(nodes[..k]) <==> exists j :: 0 <= j < k && nodes[j].id == nodes[k].id
  {
    if j :| 0 <= j < k && nodes[j].id == nodes[k].id {
      assert nodes[..k][j] == nodes[j];
    }
  }

  lemma KnownIs(nodes: seq<Node>, parent: string)
    ensures Known(nodes, parent) <==> parent in Ids(nodes)
  {
    if i :| 0 <= i < |nodes| && nodes[i].id == parent {
      assert nodes[i] in nodes;
    }
  }

  lemma {:induction false} BadParentFrom(nodes: seq<Node>, k: nat, from: nat)
    requires FirstOrphan(nodes, k) && from <= k
    ensures BadParent(nodes[from..], Ids(nodes)) == Some(UnknownParent(nodes[k].id, nodes[k].reportTo))
    decreases k - from
  {
    assert nodes[from..][0] == nodes[from] && nodes[from..][1..] == nodes[from + 1..];
    KnownIs(nodes, nodes[from].reportTo);
    if from < k {
      assert !Orphan(nodes, from);
      BadParentFrom(nodes, k, from + 1);
    }
  }

  lemma HasReports(nodes: seq<Node>, p: string)
    ensures Reports(nodes, p) != [] <==> exists i :: 0 <= i < |nodes| && nodes[i].reportTo == p
  {
    var places := ReportsInOrder(nodes, p);
    if places != [] {
      assert places[0] in places;
    }
    if i: nat :| i < |nodes| && nodes[i].reportTo == p {
      assert i in places;
    }
  }

  lemma {:induction false} BadLeafFrom(nodes: seq<Node>, k: nat, from: nat)
    requires FirstBusyAgency(nodes, k) && from <= k
    ensures BadLeaf(nodes[from..], nodes) == Some(LeafHasReports(nodes[k].id))
    decreases k - from
  {
    assert nodes[from..][0] == nodes[from] && nodes[from..][1..] == nodes[from + 1..];
    HasReports(nodes, nodes[from].id);
    hide Reports;
    if from < k {
      assert !BusyAgency(nodes, from);
      BadLeafFrom(nodes, k, from + 1);
    }
  }

  lemma {:induction false} RootsCounted(nodes: seq<Node>)
    ensures |Roots(nodes)| == |Reports(nodes, "")|
  {
    if nodes != [] {
      RootsCounted(nodes[1..]);
    }
  }

  /** Which of the checks before the walk speaks, and what it says: the first empty or repeated id; else the
      number of roots, unless it is one; else the first node under an unknown parent; else the first agency
      that has a report. */
  lemma EarlyErrorExactly(nodes: seq<Node>) returns (roots: seq<nat>)
    ensures ReportPlaces(nodes, "", roots)
    ensures forall k: nat :: BadIdAt(nodes, k)
              ==> EarlyError(nodes) == Some(if nodes[k].id == "" then EmptyId(k + 1) else DuplicateId(nodes[k].id))
    ensures ProperIds(nodes) && |roots| != 1 ==> EarlyError(nodes) == Some(RootCount(|roots|))
    ensures forall k: nat :: ProperIds(nodes) && |roots| == 1 && FirstOrphan(nodes, k)
              ==> EarlyError(nodes) == Some(UnknownParent(nodes[k].id, nodes[k].reportTo))
    ensures forall k: nat :: ProperIds(nodes) && |roots| == 1 && (forall j: nat :: !Orphan(nodes, j))
                             && FirstBusyAgency(nodes, k)
              ==> EarlyError(nodes) == Some(LeafHasReports(nodes[k].id))
  {
    roots := ReportsInOrder(nodes, "");
    RootsCounted(nodes);
    ChecksExact(nodes);
    hide ReportPlaces, ProperIds, BadId, BadParent, BadLeaf, Roots, Reports;
    assert nodes[0..] == nodes;
    forall k: nat | BadIdAt(nodes, k)
      ensures BadId(nodes, 0) == Some(if nodes[k].id == "" then EmptyId(k + 1) else DuplicateId(nodes[k].id))
    {
      BadIdFrom(nodes, k, 0);
    }
    forall k: nat | FirstOrphan(nodes, k)
      ensures BadParent(nodes, Ids(nodes)) == Some(UnknownParent(nodes[k].id, nodes[k].reportTo))
    {
      BadParentFrom(nodes, k, 0);
    }
    forall k: nat | FirstBusyAgency(nodes, k) ensures BadLeaf(nodes, nodes) == Some(LeafHasReports(nodes[k].id)) {
      BadLeafFrom(nodes, k, 0);
    }
  }

  lemma ChecksExact(nodes: seq<Node>)
    ensures ProperIds(nodes) ==> BadId(nodes, 0) == None
    ensures (forall j: nat :: !Orphan(nodes, j)) ==> BadParent(nodes, Ids(nodes)) == None
  {
    hide BadId, BadParent;
    assert ProperIds(nodes[..0]);
    BadIdExact(nodes, 0);
    BadParentExact(nodes, Ids(nodes));
    if forall j: nat :: !Orphan(nodes, j) {
      forall n | n in nodes && n.reportTo != "" ensures n.reportTo in Ids(nodes) {
        var k: nat :| k < |nodes| && nodes[k] == n;
        assert !Orphan(nodes, k);
        KnownIs(nodes, n.reportTo);
      }
    }
  }

  // ---------------------------------------------------------------- the order of siblings

  /** Some `x` stands before some `y`. */
  predicate Before(s: seq<string>, x: string, y: string) {
    exists i, j :: 0 <= i < j < |s| && s[i] == x && s[j] == y
  }

  lemma BeforeInside(a: seq<string>, s: seq<string>, b: seq<string>, x: string, y: string)
    requires Before(s, x, y)
    ensures Before(a + s + b, x, y)
  {
    var i, j :| 0 <= i < j < |s| && s[i] == x && s[j] == y;
    var t := a + s + b;
    assert t[|a| + i] == x && t[|a| + j] == y;
  }

  lemma BeforeAcross(a: seq<string>, b: seq<string>, x: string, y: string)
    requires x in a && y in b
    ensures Before(a + b, x, y)
  {
    var i :| 0 <= i < |a| && a[i] == x;
    var j :| 0 <= j < |b| && b[j] == y;
    assert (a + b)[i] == x && (a + b)[|a| + j] == y;
  }

  lemma {:induction false} PartsJoin(nodes: seq<Node>, a: seq<string>, b: seq<string>, above: set<string>)
    ensures ManagersBelow(nodes, a + b, above) == ManagersBelow(nodes, a, above) + ManagersBelow(nodes, b, above)
  {
    if a == [] {
      assert a + b == b;
    } else {
      assert (a + b)[1..] == a[1..] + b;
      PartsJoin(nodes, a[1..], b, above);
      hide IsAgency, Managers;
    }
  }

  /** The part a manager below stands in. */
  lemma {:induction false} PartOf(nodes: seq<Node>, children: seq<string>, above: set<string>, x: string)
    returns (a: nat)
    requires x in ManagersBelow(nodes, children, above)
    ensures a < |children| && x in OneBelow(nodes, children[a], above)
  {
    hide IsAgency, Managers, OneBelow;
    BelowIs(nodes, children, above);
    if x in OneBelow(nodes, children[0], above) {
      a := 0;
    } else {
      a := PartOf(nodes, children[1..], above, x);
      a := a + 1;
    }
  }

  lemma BelowIs(nodes: seq<Node>, children: seq<string>, above: set<string>)
    ensures ManagersBelow(nodes, children, above)
            == if children == [] then []
               else OneBelow(nodes, children[0], above) + ManagersBelow(nodes, children[1..], above)
  {
    hide IsAgency, Managers;
  }

  lemma Cut(nodes: seq<Node>, children: seq<string>, above: set<string>, a: nat)
    requires a < |children|
    ensures ManagersBelow(nodes, children, above)
            == ManagersBelow(nodes, children[..a], above) + OneBelow(nodes, children[a], above)
               + ManagersBelow(nodes, children[a + 1..], above)
  {
    hide ManagersBelow, OneBelow;
    assert children == children[..a] + children[a..];
    PartsJoin(nodes, children[..a], children[a..], above);
    BelowIs(nodes, children[a..], above);
    assert children[a..][1..] == children[a + 1..];
    Regroup(ManagersBelow(nodes, children[..a], above), OneBelow(nodes, children[a], above),
            ManagersBelow(nodes, children[a + 1..], above));
  }

  lemma Regroup(a: seq<string>, b: seq<string>, c: seq<string>)
    ensures a + (b + c) == a + b + c
  {
  }

  lemma {:induction false} InOnePart(nodes: seq<Node>, children: seq<string>, above: set<string>, a: nat, x: string)
    requires a < |children| && x in OneBelow(nodes, children[a], above)
    ensures x in ManagersBelow(nodes, children, above)
  {
    hide ManagersBelow, OneBelow;
    Cut(nodes, children, above, a);
  }

  /** Two parts stand in the order of their children. */
  lemma PartsInOrder(nodes: seq<Node>, children: seq<string>, above: set<string>, a: nat, b: nat, x: string, y: string)
    requires a < b < |children| && x in OneBelow(nodes, children[a], above) && y in OneBelow(nodes, children[b], above)
    ensures Before(ManagersBelow(nodes, children, above), x, y)
  {
    hide ManagersBelow, OneBelow, Before;
    assert children == children[..b] + children[b..];
    PartsJoin(nodes, children[..b], children[b..], above);
    InOnePart(nodes, children[..b], above, a, x);
    InOnePart(nodes, children[b..], above, 0, y);
    BeforeAcross(ManagersBelow(nodes, children[..b], above), ManagersBelow(nodes, children[b..], above), x, y);
  }

  // ---------------------------------------------------------------- chains that meet

  lemma BelowOn(nodes: seq<Node>, x: string, y: string, z: string)
    requires Below(nodes, x, y) && Below(nodes, y, z)
    ensures Below(nodes, x, z)
  {
    var i: nat :| Up(nodes, x, i) == y;
    var j: nat :| Up(nodes, y, j) == z;
    UpPlus(nodes, x, i, j);
    assert Up(nodes, x, i + j) == z;
  }

  /** Of two nodes above the same one, one is above the other; if they differ, it is above the other's parent. */
  lemma Comparable(nodes: seq<Node>, x: string, c: string, e: string)
    requires Below(nodes, x, c) && Below(nodes, x, e)
    ensures c == e || Below(nodes, ParentOf(nodes, c), e) || Below(nodes, ParentOf(nodes, e), c)
  {
    var i: nat :| Up(nodes, x, i) == c;
    var j: nat :| Up(nodes, x, j) == e;
    if i < j {
      UpPlus(nodes, x, i, j - i);
      assert Up(nodes, ParentOf(nodes, c), j - i - 1) == e;
    } else if j < i {
      UpPlus(nodes, x, j, i - j);
      assert Up(nodes, ParentOf(nodes, e), i - j - 1) == c;
    }
  }

  lemma BelowParent(nodes: seq<Node>, c: string, p: string, e: string)
    requires ParentOf(nodes, c) == p && Below(nodes, p, e)
    ensures Below(nodes, c, e)
  {
    var k: nat :| Up(nodes, p, k) == e;
    assert Up(nodes, c, k + 1) == e;
  }

  /** What is below two reports of `p` and below two different reports of `id`: then `p` is `id`. */
  lemma SameParents(nodes: seq<Node>, id: string, p: string, c: string, d: string, e: string, f: string,
                    x: string, y: string)
    requires IsCompanyTree(nodes) && id in Ids(nodes) && p in Ids(nodes) && c != d && e != f
    requires ParentOf(nodes, c) == p && ParentOf(nodes, d) == p
    requires ParentOf(nodes, e) == id && ParentOf(nodes, f) == id
    requires Below(nodes, x, c) && Below(nodes, x, e) && Below(nodes, y, d) && Below(nodes, y, f)
    ensures c == e && d == f
  {
    hide IsCompanyTree, Below, Ids;
    Comparable(nodes, x, c, e);
    if Below(nodes, p, e) {
      BelowParent(nodes, d, p, e);
      BelowOn(nodes, y, d, e);
      BelowBoth(nodes, id, e, f, y);
    } else if Below(nodes, id, c) {
      BelowParent(nodes, f, id, c);
      BelowOn(nodes, y, f, c);
      BelowBoth(nodes, p, c, d, y);
    }
    BelowBoth(nodes, id, d, f, y);
  }

  // ---------------------------------------------------------------- siblings

  lemma {:induction false} SubtreesInOrder(nodes: seq<Node>, id: string, above: set<string>, p: string,
                                           u: nat, v: nat, x: string, y: string)
    requires IsCompanyTree(nodes) && p in Ids(nodes) && u < v < |Reports(nodes, p)|
    requires x in Managers(nodes, id, above) && y in Managers(nodes, id, above)
    requires Below(nodes, x, Reports(nodes, p)[u]) && Below(nodes, y, Reports(nodes, p)[v])
    ensures Before(Managers(nodes, id, above), x, y)
    decreases |Ids(nodes) - above|
  {
    hide *;
    var (cs, ps) := (Reports(nodes, id), Reports(nodes, p));
    var below := ManagersBelow(nodes, cs, above + {id});
    TreeDistinct(nodes);
    HeadLast(nodes, id, above, x);
    HeadLast(nodes, id, above, y);
    TwoReports(nodes, p, u, v);
    BothBelow(nodes, id, p, ps[u], ps[v], x, y);
    var a := PartOf(nodes, cs, above + {id}, x);
    var b := PartOf(nodes, cs, above + {id}, y);
    InsidePart(nodes, cs[a], above + {id}, x);
    InsidePart(nodes, cs[b], above + {id}, y);
    if a == b {
      SubtreesInOrder(nodes, cs[a], above + {id}, p, u, v, x, y);
      Cut(nodes, cs, above + {id}, a);
      BeforeInside(ManagersBelow(nodes, cs[..a], above + {id}), OneBelow(nodes, cs[a], above + {id}),
                   ManagersBelow(nodes, cs[a + 1..], above + {id}), x, y);
    } else {
      TwoReports(nodes, id, a, b);
      SameParents(nodes, id, p, ps[u], ps[v], cs[a], cs[b], x, y);
      OrderKept(nodes, id, p, a, b, u, v);
      PartsInOrder(nodes, cs, above + {id}, a, b, x, y);
    }
    BeforeInside([], below, [id], x, y);
  }

  lemma HeadLast(nodes: seq<Node>, id: string, above: set<string>, x: string)
    requires DistinctIds(nodes) && x in Managers(nodes, id, above)
    ensures id in Ids(nodes) && |Ids(nodes) - (above + {id})| < |Ids(nodes) - above| && Below(nodes, x, id)
    ensures var below := ManagersBelow(nodes, Reports(nodes, id), above + {id});
            Managers(nodes, id, above) == [] + below + [id] && (x == id || x in below)
  {
    ManagersInside(nodes, id, above, x);
    hide IsAgency, Below;
    Fewer(Ids(nodes), above, id);
  }

  lemma TwoReports(nodes: seq<Node>, p: string, u: nat, v: nat)
    requires DistinctIds(nodes) && u < |Reports(nodes, p)| && v < |Reports(nodes, p)| && u != v
    ensures var ps := Reports(nodes, p);
            ps[u] != ps[v] && ParentOf(nodes, ps[u]) == p && ParentOf(nodes, ps[v]) == p
  {
    ReportsAreChildren(nodes, p);
    ReportsUnique(nodes, p);
    hide Reports;
  }

  lemma OrderKept(nodes: seq<Node>, id: string, p: string, a: nat, b: nat, u: nat, v: nat)
    requires DistinctIds(nodes) && u < v < |Reports(nodes, p)| && a < |Reports(nodes, id)| && b < |Reports(nodes, id)|
    requires Reports(nodes, id)[a] == Reports(nodes, p)[u] && Reports(nodes, id)[b] == Reports(nodes, p)[v]
    ensures a < b
  {
    ReportsAreChildren(nodes, p);
    ReportsAreChildren(nodes, id);
    ReportsUnique(nodes, p);
    hide Reports;
  }

  /** The head of a subtree is not below one of two siblings that both have something in it. */
  lemma BothBelow(nodes: seq<Node>, id: string, p: string, c: string, d: string, x: string, y: string)
    requires IsCompanyTree(nodes) && p in Ids(nodes) && c != d && ParentOf(nodes, c) == p && ParentOf(nodes, d) == p
    requires Below(nodes, x, id) && Below(nodes, y, id) && Below(nodes, x, c) && Below(nodes, y, d)
    ensures x != id && y != id
  {
    hide IsCompanyTree, Below, Ids;
    if x == id {
      BelowOn(nodes, y, id, c);
      BelowBoth(nodes, p, c, d, y);
    } else if y == id {
      BelowOn(nodes, x, id, d);
      BelowBoth(nodes, p, c, d, x);
    }
  }

  lemma InsidePart(nodes: seq<Node>, c: string, above: set<string>, x: string)
    requires DistinctIds(nodes) && x in OneBelow(nodes, c, above)
    ensures Below(nodes, x, c) && x in Managers(nodes, c, above)
    ensures OneBelow(nodes, c, above) == Managers(nodes, c, above)
  {
    hide IsAgency, Managers, Below;
    ManagersInside(nodes, c, above, x);
  }

  /** Of two nodes under the same parent, everything that is written at and below the one declared first comes
      before everything that is written at and below the other. */
  lemma SiblingsInOrder(nodes: seq<Node>, i: nat, j: nat, x: string, y: string)
    requires IsCompanyTree(nodes) && i < j < |nodes| && nodes[i].reportTo == nodes[j].reportTo
    requires var all := Managers(nodes, Roots(nodes)[0].id, {}); x in all && y in all
    requires Below(nodes, x, nodes[i].id) && Below(nodes, y, nodes[j].id)
    ensures Before(Managers(nodes, Roots(nodes)[0].id, {}), x, y)
  {
    var p := nodes[i].reportTo;
    OneRoot(nodes, i, j);
    var places := ReportsInOrder(nodes, p);
    assert i in places && j in places;
    var u: nat :| u < |places| && places[u] == i;
    var v: nat :| v < |places| && places[v] == j;
    hide IsCompanyTree, Reports, Ids, Below, Managers, Roots;
    SubtreesInOrder(nodes, Roots(nodes)[0].id, {}, p, u, v, x, y);
  }

  /** Two nodes that report alike report to a node. */
  lemma OneRoot(nodes: seq<Node>, i: nat, j: nat)
    requires IsCompanyTree(nodes) && i < j < |nodes| && nodes[i].reportTo == nodes[j].reportTo
    ensures nodes[i].reportTo in Ids(nodes)
  {
    assert nodes[i] in nodes && nodes[j] in nodes && nodes[i].id != nodes[j].id;
    RootFacts(nodes);
    ParentOfNode(nodes, nodes[i]);
    ParentOfNode(nodes, nodes[j]);
  }
}
