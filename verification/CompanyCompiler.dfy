/** Writing the manager configs of a validated company: children first, each manager once. */
module CompanyCompiler {
  import opened Collections
  import opened CompanyGraph

  /** Where a node's config lies: the entry of an installed agency, or a written manager file. */
  datatype ConfigPath = AgencyConfig(id: string) | ManagerConfig(id: string)

  /** One delegation of a manager. */
  datatype Entry = Entry(name: string, config: ConfigPath)

  datatype Manager = Manager(id: string, enabled: seq<string>, entries: seq<Entry>)

  predicate IsAgency(nodes: seq<Node>, id: string) {
    exists n :: n in nodes && n.id == id && n.agency
  }

  /** Where a child's config is found when its manager is written. */
  function PathOf(nodes: seq<Node>, id: string): ConfigPath {
    if IsAgency(nodes, id) then AgencyConfig(id) else ManagerConfig(id)
  }

  function EntriesOf(nodes: seq<Node>, children: seq<string>): (r: seq<Entry>)
    ensures |r| == |children|
    ensures forall i :: 0 <= i < |r| ==> r[i] == Entry(children[i], PathOf(nodes, children[i]))
  {
    seq(|children|, i requires 0 <= i < |children| => Entry(children[i], PathOf(nodes, children[i])))
  }

  function ManagerOf(nodes: seq<Node>, id: string): Manager {
    Manager(id, Reports(nodes, id), EntriesOf(nodes, Reports(nodes, id)))
  }

  /** The managers at and below `id`, children before parents; `above` holds the ids on the way down. */
  function Managers(nodes: seq<Node>, id: string, above: set<string>): seq<string>
    decreases |Ids(nodes) - above|, 0
  {
    if id in above || id !in Ids(nodes) then []
    else
      Fewer(Ids(nodes), above, id);
      ManagersBelow(nodes, Reports(nodes, id), above + {id}) + [id]
  }

  function ManagersBelow(nodes: seq<Node>, children: seq<string>, above: set<string>): seq<string>
    decreases |Ids(nodes) - above|, 1, |children|
  {
    if children == [] then []
    else
      (if IsAgency(nodes, children[0]) then [] else Managers(nodes, children[0], above))
      + ManagersBelow(nodes, children[1..], above)
  }

  // ---------------------------------------------------------------- where the walk is

  /** `x` is `id` or below it. */
  ghost predicate Below(nodes: seq<Node>, x: string, id: string) {
    exists k: nat :: Up(nodes, x, k) == id
  }

  /** Everything in `above` is a proper ancestor of `id`. */
  ghost predicate Ancestors(nodes: seq<Node>, id: string, above: set<string>) {
    forall a :: a in above ==> exists k: nat :: k > 0 && Up(nodes, id, k) == a
  }

  lemma AncestorsFresh(nodes: seq<Node>, id: string, above: set<string>)
    requires IsCompanyTree(nodes) && id in Ids(nodes) && Ancestors(nodes, id, above)
    ensures id !in above
  {
    TreeNotLooped(nodes, id);
  }

  lemma AncestorsOfChild(nodes: seq<Node>, id: string, above: set<string>, c: string)
    requires Ancestors(nodes, id, above) && ParentOf(nodes, c) == id
    ensures Ancestors(nodes, c, above + {id})
  {
    forall a | a in above + {id} ensures exists k: nat :: k > 0 && Up(nodes, c, k) == a {
      if a in above {
        var k: nat :| k > 0 && Up(nodes, id, k) == a;
        assert Up(nodes, c, k + 1) == a;
      } else {
        assert Up(nodes, c, 1) == Up(nodes, id, 0);
      }
    }
  }

  lemma BelowChild(nodes: seq<Node>, x: string, c: string, id: string)
    requires Below(nodes, x, c) && ParentOf(nodes, c) == id
    ensures Below(nodes, x, id) && exists k: nat :: k > 0 && Up(nodes, x, k) == id
  {
    var k: nat :| Up(nodes, x, k) == c;
    UpPlus(nodes, x, k, 1);
    assert Up(nodes, c, 1) == Up(nodes, id, 0);
    assert Up(nodes, x, k + 1) == id;
  }

  /** Children of `id`, all of them ids. */
  ghost predicate ChildrenOf(nodes: seq<Node>, children: seq<string>, id: string) {
    forall i :: 0 <= i < |children| ==> children[i] in Ids(nodes) && ParentOf(nodes, children[i]) == id
  }

  lemma ReportsAreChildren(nodes: seq<Node>, id: string)
    requires DistinctIds(nodes)
    ensures ChildrenOf(nodes, Reports(nodes, id), id)
  {
    var rs := Reports(nodes, id);
    forall i | 0 <= i < |rs| ensures rs[i] in Ids(nodes) && ParentOf(nodes, rs[i]) == id {
      assert rs[i] in rs;
      ReportsAre(nodes, id, rs[i]);
    }
  }

  // ---------------------------------------------------------------- laws of the order

  lemma {:induction false} ManagersInside(nodes: seq<Node>, id: string, above: set<string>, x: string)
    requires DistinctIds(nodes) && x in Managers(nodes, id, above)
    ensures x in Ids(nodes) && Below(nodes, x, id)
    ensures x == id || !IsAgency(nodes, x)
    decreases |Ids(nodes) - above|, 0
  {
    if x == id {
      assert Up(nodes, x, 0) == id;
    } else {
      Fewer(Ids(nodes), above, id);
      ReportsAreChildren(nodes, id);
      var c := ManagersBelowInside(nodes, Reports(nodes, id), above + {id}, x, id);
      BelowChild(nodes, x, c, id);
    }
  }

  lemma {:induction false} ManagersBelowInside(nodes: seq<Node>, children: seq<string>, above: set<string>,
                                           x: string, id: string)
    returns (c: string)
    requires DistinctIds(nodes) && ChildrenOf(nodes, children, id) && x in ManagersBelow(nodes, children, above)
    ensures c in children && ParentOf(nodes, c) == id && Below(nodes, x, c) && x in Ids(nodes) && !IsAgency(nodes, x)
    decreases |Ids(nodes) - above|, 1, |children|
  {
    c := children[0];
    if !IsAgency(nodes, c) && x in Managers(nodes, c, above) {
      ManagersInside(nodes, c, above, x);
    } else {
      c := ManagersBelowInside(nodes, children[1..], above, x, id);
    }
  }

  lemma {:induction false} ReportsUnique(nodes: seq<Node>, p: string)
    requires DistinctIds(nodes)
    ensures Distinct(Reports(nodes, p))
  {
    if nodes != [] {
      var rest := Reports(nodes[1..], p);
      ReportsUnique(nodes[1..], p);
      forall j | 0 <= j < |rest| ensures rest[j] != nodes[0].id {
        assert rest[j] in rest;
        ReportsExact(nodes[1..], p, rest[j]);
        var n :| n in nodes[1..] && n.id == rest[j];
        var k :| 0 <= k < |nodes[1..]| && nodes[1..][k] == n;
        assert nodes[k + 1] == n;
      }
    }
  }

  lemma UniqueAppend(a: seq<string>, b: seq<string>)
    requires Distinct(a) && Distinct(b) && forall x :: x in a ==> x !in b
    ensures Distinct(a + b)
  {
    var s := a + b;
    forall i, j | 0 <= i < j < |s| ensures s[i] != s[j] {
      assert i < |a| ==> s[i] in a;
      assert j >= |a| ==> s[j] in b;
    }
  }

  /** Each manager is written exactly once. */
  lemma {:induction false} ManagersUnique(nodes: seq<Node>, id: string, above: set<string>)
    requires IsCompanyTree(nodes)
    ensures Distinct(Managers(nodes, id, above))
    decreases |Ids(nodes) - above|, 0
  {
    if id !in above && id in Ids(nodes) {
      hide IsCompanyTree, Reports, Ids, Below;
      var cs := Reports(nodes, id);
      var below := ManagersBelow(nodes, cs, above + {id});
      Fewer(Ids(nodes), above, id);
      TreeDistinct(nodes);
      ReportsAreChildren(nodes, id);
      ReportsUnique(nodes, id);
      ManagersBelowUnique(nodes, cs, above + {id}, id);
      if id in below {
        var c := ManagersBelowInside(nodes, cs, above + {id}, id, id);
        BelowItself(nodes, id, c);
        TreeNotLooped(nodes, id);
      }
      assert Distinct([id]);
      UniqueAppend(below, [id]);
    }
  }

  lemma InPrefix(first: seq<string>, more: seq<string>, x: nat, c: string)
    requires x < |first| + |more|
    requires if x < |first| then c in first[..x] else c in more[..x - |first|]
    ensures c in (first + more)[..x]
  {
    if x < |first| {
      assert (first + more)[..x] == first[..x];
    } else {
      assert (first + more)[..x] == first + more[..x - |first|];
    }
  }

  lemma TreeDistinct(nodes: seq<Node>)
    requires IsCompanyTree(nodes)
    ensures DistinctIds(nodes)
  {
  }

  lemma BelowItself(nodes: seq<Node>, id: string, c: string)
    requires id in Ids(nodes) && ParentOf(nodes, c) == id && Below(nodes, id, c)
    ensures Looped(nodes, id)
  {
    BelowChild(nodes, id, c, id);
  }

  lemma {:induction false} ManagersBelowUnique(nodes: seq<Node>, children: seq<string>, above: set<string>, id: string)
    requires IsCompanyTree(nodes) && id in Ids(nodes) && ChildrenOf(nodes, children, id) && Distinct(children)
    ensures Distinct(ManagersBelow(nodes, children, above))
    decreases |Ids(nodes) - above|, 1, |children|
  {
    if children != [] {
      var (c, rest) := (children[0], children[1..]);
      TreeDistinct(nodes);
      assert ParentOf(nodes, c) == id && ChildrenOf(nodes, rest, id) && Distinct(rest) && c !in rest;
      hide IsCompanyTree, Ids, Below, ChildrenOf, IsAgency;
      ManagersBelowUnique(nodes, rest, above, id);
      if !IsAgency(nodes, c) {
        ManagersUnique(nodes, c, above);
        forall x | x in Managers(nodes, c, above) ensures x !in ManagersBelow(nodes, rest, above) {
          if x in ManagersBelow(nodes, rest, above) {
            ManagersInside(nodes, c, above, x);
            var d := ManagersBelowInside(nodes, rest, above, x, id);
            BelowBoth(nodes, id, c, d, x);
          }
        }
        UniqueAppend(Managers(nodes, c, above), ManagersBelow(nodes, rest, above));
      }
    }
  }

  lemma BelowBoth(nodes: seq<Node>, p: string, c: string, d: string, x: string)
    requires IsCompanyTree(nodes) && p in Ids(nodes)
    requires ParentOf(nodes, c) == p && ParentOf(nodes, d) == p && Below(nodes, x, c) && Below(nodes, x, d)
    ensures c == d
  {
    var i: nat :| Up(nodes, x, i) == c;
    var j: nat :| Up(nodes, x, j) == d;
    SubtreesDisjoint(nodes, p, c, d, x, i, j);
  }

  /** The managers at and below a child are among those of its parent, and the child itself comes
      before the parent. */
  lemma {:induction false} ChildrenFirst(nodes: seq<Node>, id: string, above: set<string>, x: nat, c: string)
    requires IsCompanyTree(nodes) && id in Ids(nodes) && Ancestors(nodes, id, above)
    requires x < |Managers(nodes, id, above)|
    requires c in Reports(nodes, Managers(nodes, id, above)[x]) && !IsAgency(nodes, c)
    ensures c in Managers(nodes, id, above)[..x]
    decreases |Ids(nodes) - above|, 0
  {
    hide IsCompanyTree, Reports, Ids, IsAgency;
    AncestorsFresh(nodes, id, above);
    Fewer(Ids(nodes), above, id);
    var cs := Reports(nodes, id);
    var below := ManagersBelow(nodes, cs, above + {id});
    TreeDistinct(nodes);
    ReportsAreChildren(nodes, id);
    if x == |below| {
      ChildWritten(nodes, cs, above + {id}, id, above, c);
      assert Managers(nodes, id, above)[..x] == below;
    } else {
      ChildrenFirstBelow(nodes, cs, above + {id}, id, above, x, c);
      assert Managers(nodes, id, above)[..x] == below[..x];
    }
  }

  lemma {:induction false} ChildWritten(
    nodes: seq<Node>, children: seq<string>, above: set<string>, id: string, upper: set<string>, c: string)
    requires IsCompanyTree(nodes) && ChildrenOf(nodes, children, id) && Ancestors(nodes, id, upper)
    requires above == upper + {id} && c in children && !IsAgency(nodes, c)
    ensures c in ManagersBelow(nodes, children, above)
  {
    if children[0] == c {
      AncestorsOfChild(nodes, id, upper, c);
      AncestorsFresh(nodes, c, above);
      assert Managers(nodes, c, above)[|Managers(nodes, c, above)| - 1] == c;
    } else {
      ChildWritten(nodes, children[1..], above, id, upper, c);
    }
  }

  lemma BelowStep(nodes: seq<Node>, children: seq<string>, above: set<string>)
    requires children != []
    ensures ManagersBelow(nodes, children, above)
            == (if IsAgency(nodes, children[0]) then [] else Managers(nodes, children[0], above))
               + ManagersBelow(nodes, children[1..], above)
  {
    hide Managers, IsAgency;
  }

  lemma NoneBelow(nodes: seq<Node>, children: seq<string>, above: set<string>)
    ensures children == [] ==> ManagersBelow(nodes, children, above) == []
  {
  }

  lemma FirstChild(nodes: seq<Node>, children: seq<string>, id: string)
    requires ChildrenOf(nodes, children, id) && children != []
    ensures ParentOf(nodes, children[0]) == id && children[0] in Ids(nodes) && ChildrenOf(nodes, children[1..], id)
  {
    hide ParentOf, Ids;
  }

  lemma InEither(first: seq<string>, more: seq<string>, x: nat)
    requires x < |first + more|
    ensures (first + more)[x] == if x < |first| then first[x] else more[x - |first|]
  {
  }

  lemma {:induction false} ChildrenFirstBelow(
    nodes: seq<Node>, children: seq<string>, above: set<string>, id: string, upper: set<string>, x: nat, c: string)
    requires IsCompanyTree(nodes) && ChildrenOf(nodes, children, id) && Ancestors(nodes, id, upper)
    requires above == upper + {id} && x < |ManagersBelow(nodes, children, above)|
    requires c in Reports(nodes, ManagersBelow(nodes, children, above)[x]) && !IsAgency(nodes, c)
    ensures c in ManagersBelow(nodes, children, above)[..x]
    decreases |Ids(nodes) - above|, 1, |children|
  {
    NoneBelow(nodes, children, above);
    hide *;
    var (d, rest) := (children[0], children[1..]);
    FirstChild(nodes, children, id);
    var first := if IsAgency(nodes, d) then [] else Managers(nodes, d, above);
    var more := ManagersBelow(nodes, rest, above);
    BelowStep(nodes, children, above);
    InEither(first, more, x);
    if x < |first| {
      AncestorsOfChild(nodes, id, upper, d);
      ChildrenFirst(nodes, d, above, x, c);
    } else {
      ChildrenFirstBelow(nodes, rest, above, id, upper, x - |first|, c);
    }
    InPrefix(first, more, x, c);
  }

  /** From the root, every manager of the company is written. */
  lemma {:induction false} EveryManager(nodes: seq<Node>, x: string, k: nat)
    requires IsCompanyTree(nodes) && x in Ids(nodes) && (x == Roots(nodes)[0].id || !IsAgency(nodes, x))
    requires Up(nodes, x, k) == Roots(nodes)[0].id
    ensures x in Managers(nodes, Roots(nodes)[0].id, {})
    decreases k
  {
    var root := Roots(nodes)[0].id;
    RootFacts(nodes);
    var all := Managers(nodes, root, {});
    if x == root {
      assert all[|all| - 1] == root;
    } else {
      var p := ParentOf(nodes, x);
      ParentIsNode(nodes, x);
      ReportsAre(nodes, p, x);
      ManagersNotLeaves(nodes, p, x);
      EveryManager(nodes, p, k - 1);
      var i :| 0 <= i < |all| && all[i] == p;
      ChildrenFirst(nodes, root, {}, i, x);
    }
  }

  /** A node that has a report is no agency. */
  lemma ManagersNotLeaves(nodes: seq<Node>, p: string, x: string)
    requires IsCompanyTree(nodes) && x in Reports(nodes, p)
    ensures !IsAgency(nodes, p)
  {
  }

  /** The write order of a validated company: every manager and the root exactly once, and every
      manager after all the managers that report to it. */
  lemma WriteOrder(nodes: seq<Node>)
    requires IsCompanyTree(nodes)
    ensures var (all, root) := (Managers(nodes, Roots(nodes)[0].id, {}), Roots(nodes)[0].id);
      && Distinct(all)
      && (forall x :: x in all <==> x in Ids(nodes) && (x == root || !IsAgency(nodes, x)))
      && (forall i, c :: 0 <= i < |all| && c in Reports(nodes, all[i]) && !IsAgency(nodes, c) ==> c in all[..i])
  {
    var root := Roots(nodes)[0].id;
    var all := Managers(nodes, root, {});
    RootFacts(nodes);
    ManagersUnique(nodes, root, {});
    forall x ensures x in all <==> x in Ids(nodes) && (x == root || !IsAgency(nodes, x)) {
      if x in all {
        ManagersInside(nodes, root, {}, x);
      }
      if x in Ids(nodes) && (x == root || !IsAgency(nodes, x)) {
        assert Rooted(nodes, x, root);
        var k: nat :| Up(nodes, x, k) == root;
        EveryManager(nodes, x, k);
      }
    }
    forall i, c | 0 <= i < |all| && c in Reports(nodes, all[i]) && !IsAgency(nodes, c) ensures c in all[..i] {
      ChildrenFirst(nodes, root, {}, i, c);
    }
  }

  // ---------------------------------------------------------------- the writer

  function ManagersOf(nodes: seq<Node>, ids: seq<string>): (r: seq<Manager>)
    ensures |r| == |ids|
    ensures forall i :: 0 <= i < |ids| ==> r[i] == ManagerOf(nodes, ids[i])
  {
    seq(|ids|, i requires 0 <= i < |ids| => ManagerOf(nodes, ids[i]))
  }

  /** The recorded config paths after the managers `ids` have been written. */
  function Recorded(paths: map<string, ConfigPath>, ids: seq<string>): map<string, ConfigPath> {
    paths + map id | id in ids :: ManagerConfig(id)
  }

  lemma RecordedAppend(paths: map<string, ConfigPath>, a: seq<string>, b: seq<string>)
    ensures Recorded(Recorded(paths, a), b) == Recorded(paths, a + b)
  {
  }

  lemma ManagersOfAppend(nodes: seq<Node>, a: seq<string>, b: seq<string>)
    ensures ManagersOf(nodes, a + b) == ManagersOf(nodes, a) + ManagersOf(nodes, b)
  {
  }

  /** Every agency is recorded, and nothing that is still to be written is. */
  ghost predicate Ready(nodes: seq<Node>, paths: map<string, ConfigPath>, pending: seq<string>) {
    && (forall a :: a in Ids(nodes) && IsAgency(nodes, a) && a !in pending ==>
           a in paths && paths[a] == AgencyConfig(a))
    && forall m :: m in pending && !IsAgency(nodes, m) ==> m !in paths
  }

  /** The names written below `id` before its `i`-th report, split off the names written in all. */
  ghost predicate Split(nodes: seq<Node>, children: seq<string>, inner: set<string>, i: nat, names: seq<string>) {
    i <= |children| && names + ManagersBelow(nodes, children[i..], inner) == ManagersBelow(nodes, children, inner)
  }

  function OneBelow(nodes: seq<Node>, child: string, inner: set<string>): seq<string> {
    if IsAgency(nodes, child) then [] else Managers(nodes, child, inner)
  }

  lemma SplitStart(nodes: seq<Node>, children: seq<string>, inner: set<string>)
    ensures Split(nodes, children, inner, 0, [])
  {
    assert children[0..] == children;
    assert [] + ManagersBelow(nodes, children, inner) == ManagersBelow(nodes, children, inner);
  }

  lemma SplitStep(nodes: seq<Node>, children: seq<string>, inner: set<string>, i: nat, names: seq<string>)
    requires Split(nodes, children, inner, i, names) && i < |children|
    ensures Split(nodes, children, inner, i + 1, names + OneBelow(nodes, children[i], inner))
  {
    var below := OneBelow(nodes, children[i], inner);
    var rest := ManagersBelow(nodes, children[i + 1..], inner);
    assert children[i..][0] == children[i] && children[i..][1..] == children[i + 1..];
    hide Managers, IsAgency;
    assert ManagersBelow(nodes, children[i..], inner) == below + rest;
    assert names + (below + rest) == names + below + rest;
  }

  lemma SplitEnd(nodes: seq<Node>, children: seq<string>, inner: set<string>, names: seq<string>)
    requires Split(nodes, children, inner, |children|, names)
    ensures names == ManagersBelow(nodes, children, inner)
  {
    assert children[|children|..] == [];
    assert names + [] == names;
  }

  /** In what is written below `id`, the part of one report is its own. */
  lemma SplitParts(nodes: seq<Node>, children: seq<string>, inner: set<string>, i: nat, names: seq<string>, x: string)
    requires Split(nodes, children, inner, i, names) && i < |children|
    requires Distinct(ManagersBelow(nodes, children, inner))
    ensures x in names || x in OneBelow(nodes, children[i], inner) ==> x in ManagersBelow(nodes, children, inner)
    ensures x in OneBelow(nodes, children[i], inner) ==> x !in names
  {
    SplitStep(nodes, children, inner, i, names);
    var all := ManagersBelow(nodes, children, inner);
    var below := OneBelow(nodes, children[i], inner);
    hide ManagersBelow, OneBelow;
    var rest := ManagersBelow(nodes, children[i + 1..], inner);
    assert all == names + below + rest;
    forall a, b | 0 <= a < |names| && 0 <= b < |below| ensures names[a] != below[b] {
      assert all[a] == names[a] && all[|names| + b] == below[b];
    }
  }

  /** What the tree says of a node and one of its reports. */
  lemma ReportFacts(nodes: seq<Node>, id: string, above: set<string>, c: string)
    requires IsCompanyTree(nodes) && id in Ids(nodes) && Ancestors(nodes, id, above) && c in Reports(nodes, id)
    ensures c in Ids(nodes) && c != id && !IsAgency(nodes, id) && Ancestors(nodes, c, above + {id})
    ensures c !in above + {id}
  {
    ReportsAre(nodes, id, c);
    AncestorsOfChild(nodes, id, above, c);
    AncestorsFresh(nodes, c, above + {id});
    ManagersNotLeaves(nodes, id, c);
  }

  lemma ManagersLast(nodes: seq<Node>, id: string, above: set<string>)
    requires id in Ids(nodes) && id !in above
    ensures Managers(nodes, id, above) == ManagersBelow(nodes, Reports(nodes, id), above + {id}) + [id]
  {
  }

  /** Each path that is not still to be written is there, and each one to be written is not. */
  lemma ChildReady(
    nodes: seq<Node>, paths: map<string, ConfigPath>, id: string, above: set<string>, names: seq<string>, i: nat)
    requires IsCompanyTree(nodes) && id in Ids(nodes) && Ancestors(nodes, id, above)
    requires Ready(nodes, paths, Managers(nodes, id, above)) && i < |Reports(nodes, id)|
    requires Split(nodes, Reports(nodes, id), above + {id}, i, names)
    ensures var (c, now) := (Reports(nodes, id)[i], Recorded(paths, names));
      && c in Ids(nodes) && Ancestors(nodes, c, above + {id})
      && (if IsAgency(nodes, c) then c in now && now[c] == AgencyConfig(c)
          else c !in now && Ready(nodes, now, Managers(nodes, c, above + {id})))
  {
    hide IsCompanyTree, Ids, Ancestors, Reports, IsAgency, Managers, Split;
    var (cs, inner) := (Reports(nodes, id), above + {id});
    var c := cs[i];
    AncestorsFresh(nodes, id, above);
    assert c in cs;
    ReportFacts(nodes, id, above, c);
    ManagersLast(nodes, id, above);
    ManagersLast(nodes, c, inner);
    ManagersUnique(nodes, id, above);
    UniquePrefix(ManagersBelow(nodes, cs, inner), id);
    TreeDistinct(nodes);
    var all := Managers(nodes, id, above);
    forall x
      ensures x in names || x in OneBelow(nodes, c, inner) ==> (x in all && !IsAgency(nodes, x))
      ensures x in OneBelow(nodes, c, inner) ==> x !in names
    {
      SplitParts(nodes, cs, inner, i, names, x);
      if x in all {
        ManagersInside(nodes, id, above, x);
      }
    }
    forall a | IsAgency(nodes, a) && a in Ids(nodes) ensures a !in all {
      if a in all {
        ManagersInside(nodes, id, above, a);
      }
    }
  }

  lemma UniquePrefix(s: seq<string>, x: string)
    requires Distinct(s + [x])
    ensures Distinct(s)
  {
    assert forall i :: 0 <= i < |s| ==> s[i] == (s + [x])[i];
  }

  lemma EntriesStep(nodes: seq<Node>, children: seq<string>, i: nat)
    requires i < |children|
    ensures EntriesOf(nodes, children[..i + 1])
         == EntriesOf(nodes, children[..i]) + [Entry(children[i], PathOf(nodes, children[i]))]
  {
    assert children[..i + 1] == children[..i] + [children[i]];
  }

  lemma NoneYet(nodes: seq<Node>, paths: map<string, ConfigPath>, children: seq<string>)
    ensures Recorded(paths, []) == paths && ManagersOf(nodes, []) == [] && EntriesOf(nodes, children[..0]) == []
  {
  }

  /** Writing one more part: the recorded paths and the written managers grow by that part. */
  lemma WritePart(
    nodes: seq<Node>, paths: map<string, ConfigPath>, written: seq<Manager>, names: seq<string>, part: seq<string>)
    ensures Recorded(Recorded(paths, names), part) == Recorded(paths, names + part)
    ensures written + ManagersOf(nodes, names) + ManagersOf(nodes, part) == written + ManagersOf(nodes, names + part)
  {
    RecordedAppend(paths, names, part);
    ManagersOfAppend(nodes, names, part);
  }

  lemma WriteLast(nodes: seq<Node>, paths: map<string, ConfigPath>, written: seq<Manager>, names: seq<string>,
                  id: string)
    ensures Recorded(paths, names)[id := ManagerConfig(id)] == Recorded(paths, names + [id])
    ensures written + ManagersOf(nodes, names) + [ManagerOf(nodes, id)] == written + ManagersOf(nodes, names + [id])
  {
    hide ManagerOf;
    ManagersOfAppend(nodes, names, [id]);
    assert ManagersOf(nodes, [id]) == [ManagerOf(nodes, id)];
    RecordedLast(paths, names, id);
  }

  lemma RecordedLast(paths: map<string, ConfigPath>, names: seq<string>, id: string)
    ensures Recorded(paths, names)[id := ManagerConfig(id)] == Recorded(paths, names + [id])
  {
  }

  class Compiler {
    const nodes: seq<Node>
    var configPaths: map<string, ConfigPath>
    var written: seq<Manager>

    /** Installs the agencies. */
    constructor (nodes: seq<Node>)
      ensures this.nodes == nodes && written == []
      ensures forall a :: a in Ids(nodes) && IsAgency(nodes, a) ==>
                a in configPaths && configPaths[a] == AgencyConfig(a)
      ensures forall a :: a in configPaths ==> a in Ids(nodes) && IsAgency(nodes, a)
    {
      this.nodes := nodes;
      configPaths := map a | a in Ids(nodes) && IsAgency(nodes, a) :: AgencyConfig(a);
      written := [];
    }

    /** Writes the manager `id` after everything below it, and returns its path. */
    method WriteManager(id: string, ghost above: set<string>) returns (path: ConfigPath)
      requires IsCompanyTree(nodes) && id in Ids(nodes) && Ancestors(nodes, id, above)
      requires Ready(nodes, configPaths, Managers(nodes, id, above))
      modifies this
      ensures path == ManagerConfig(id)
      ensures written == old(written) + ManagersOf(nodes, Managers(nodes, id, above))
      ensures configPaths == Recorded(old(configPaths), Managers(nodes, id, above))
      decreases |Ids(nodes) - above|
    {
      hide IsCompanyTree, Reports, Ids, Ancestors, Ready, Managers, ManagersBelow, Recorded, ManagersOf,
           EntriesOf, Split;
      hide IsAgency;
      AncestorsFresh(nodes, id, above);
      Fewer(Ids(nodes), above, id);
      ManagersLast(nodes, id, above);
      var children := Reports(nodes, id);
      ghost var inner, names: seq<string> := above + {id}, [];
      var entries: seq<Entry> := [];
      NoneYet(nodes, configPaths, children);
      SplitStart(nodes, children, inner);
      var i := 0;
      while i < |children|
        invariant i <= |children| && entries == EntriesOf(nodes, children[..i])
        invariant Split(nodes, children, inner, i, names)
        invariant written == old(written) + ManagersOf(nodes, names)
        invariant configPaths == Recorded(old(configPaths), names)
      {
        var child := children[i];
        ghost var part := OneBelow(nodes, child, inner);
        ChildReady(nodes, old(configPaths), id, above, names, i);
        NoneYet(nodes, configPaths, children);
        assert written + [] == written;
        var config;
        if child in configPaths {
          config := configPaths[child];
        } else {
          config := WriteManager(child, inner);
        }
        WritePart(nodes, old(configPaths), old(written), names, part);
        EntriesStep(nodes, children, i);
        SplitStep(nodes, children, inner, i, names);
        entries := entries + [Entry(child, config)];
        names := names + part;
        i := i + 1;
      }
      SplitEnd(nodes, children, inner, names);
      assert children[..i] == children;
      WriteLast(nodes, old(configPaths), old(written), names, id);
      written := written + [Manager(id, children, entries)];
      path := ManagerConfig(id);
      configPaths := configPaths[id := path];
    }
  }

  /** The manager delegates to the nodes at these places, under their ids and in this order: to an agency's
      installed config, or to the config written for a manager. */
  ghost predicate DelegatesTo(nodes: seq<Node>, m: Manager, places: seq<nat>) {
    && |m.enabled| == |m.entries| == |places|
    && forall j :: 0 <= j < |places| ==>
         && places[j] < |nodes|
         && var n := nodes[places[j]];
            && m.enabled[j] == n.id
            && m.entries[j] == Entry(n.id, if n.agency then AgencyConfig(n.id) else ManagerConfig(n.id))
  }

  /** The manager delegates to exactly the nodes declared to report to it, each once, as declared. */
  ghost predicate DelegatesExactly(nodes: seq<Node>, m: Manager) {
    exists places: seq<nat> :: ReportPlaces(nodes, m.id, places) && DelegatesTo(nodes, m, places)
  }

  lemma AgencyAt(nodes: seq<Node>, k: nat)
    requires DistinctIds(nodes) && k < |nodes|
    ensures IsAgency(nodes, nodes[k].id) <==> nodes[k].agency
  {
    assert nodes[k] in nodes;
  }

  lemma ManagersDelegate(nodes: seq<Node>, ids: seq<string>)
    requires DistinctIds(nodes)
    ensures forall i :: 0 <= i < |ids| ==>
              ManagersOf(nodes, ids)[i].id == ids[i] && DelegatesExactly(nodes, ManagersOf(nodes, ids)[i])
  {
    hide Reports, IsAgency, ReportPlaces;
    forall i | 0 <= i < |ids|
      ensures ManagersOf(nodes, ids)[i].id == ids[i] && DelegatesExactly(nodes, ManagersOf(nodes, ids)[i])
    {
      var places := ReportsInOrder(nodes, ids[i]);
      forall j | 0 <= j < |places| ensures IsAgency(nodes, nodes[places[j]].id) <==> nodes[places[j]].agency {
        AgencyAt(nodes, places[j]);
      }
      assert DelegatesTo(nodes, ManagersOf(nodes, ids)[i], places);
    }
  }

  /** Compiles a validated company: the managers are written in the order of `WriteOrder`, and the
      root's config is returned. */
  method CompileCompany(nodes: seq<Node>) returns (path: ConfigPath, written: seq<Manager>)
    requires IsCompanyTree(nodes)
    ensures path == ManagerConfig(Roots(nodes)[0].id)
    ensures written == ManagersOf(nodes, Managers(nodes, Roots(nodes)[0].id, {}))
    ensures forall i :: 0 <= i < |written| ==> DelegatesExactly(nodes, written[i])
  {
    var root := Roots(nodes)[0].id;
    RootFacts(nodes);
    TreeDistinct(nodes);
    ManagersDelegate(nodes, Managers(nodes, root, {}));
    var compiler := new Compiler(nodes);
    AgenciesReady(nodes, compiler.configPaths);
    path := compiler.WriteManager(root, {});
    written := compiler.written;
  }

  lemma AgenciesReady(nodes: seq<Node>, paths: map<string, ConfigPath>)
    requires forall a :: a in Ids(nodes) && IsAgency(nodes, a) ==> a in paths && paths[a] == AgencyConfig(a)
    requires forall a :: a in paths ==> a in Ids(nodes) && IsAgency(nodes, a)
    ensures Ready(nodes, paths, Managers(nodes, Roots(nodes)[0].id, {}))
    requires IsCompanyTree(nodes)
  {
    hide Managers, IsAgency, Ids;
  }
}
