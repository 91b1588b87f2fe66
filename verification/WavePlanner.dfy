/** The wave planner as it runs: indegree counters, child lists and a ready list, proved to compute
    the layering of module `Waves`. */
module WavePlanner {
  import opened Collections
  import opened Options
  import opened Text
  import opened Waves

  // ---------------------------------------------------------------- counting edges

  /** How often `x` occurs. */
  function Count(s: seq<string>, x: string): nat {
    if s == [] then 0
    else Count(s[..|s| - 1], x) + if s[|s| - 1] == x then 1 else 0
  }

  /** How many entries, repeated ones included, are not in `placed`. */
  function Outside(deps: seq<string>, placed: set<string>): nat {
    if deps == [] then 0
    else Outside(deps[..|deps| - 1], placed) + if deps[|deps| - 1] !in placed then 1 else 0
  }

  lemma CountSnoc(s: seq<string>, y: string, x: string)
    ensures Count(s + [y], x) == Count(s, x) + if y == x then 1 else 0
  {
    assert (s + [y])[..|s|] == s;
  }

  lemma {:induction false} CountPrefix(s: seq<string>, m: nat, x: string)
    requires m <= |s|
    ensures Count(s[..m], x) <= Count(s, x)
  {
    if m < |s| {
      assert s[..|s| - 1][..m] == s[..m];
      CountPrefix(s[..|s| - 1], m, x);
    } else {
      assert s[..m] == s;
    }
  }

  lemma {:induction false} OutsideNone(deps: seq<string>)
    ensures Outside(deps, {}) == |deps|
  {
    if deps != [] {
      OutsideNone(deps[..|deps| - 1]);
    }
  }

  /** Placing one more id takes away exactly its occurrences. */
  lemma {:induction false} OutsideStep(deps: seq<string>, placed: set<string>, r: string)
    requires r !in placed
    ensures Outside(deps, placed + {r}) == Outside(deps, placed) - Count(deps, r)
  {
    if deps != [] {
      OutsideStep(deps[..|deps| - 1], placed, r);
    }
  }

  lemma {:induction false} OutsideZero(deps: seq<string>, placed: set<string>)
    ensures Outside(deps, placed) == 0 <==> forall d :: d in deps ==> d in placed
  {
    if deps != [] {
      OutsideZero(deps[..|deps| - 1], placed);
      assert forall d :: d in deps <==> d in deps[..|deps| - 1] || d == deps[|deps| - 1];
    }
  }

  lemma {:induction false} OutsideShrinks(deps: seq<string>, a: set<string>, b: set<string>)
    requires a <= b
    ensures Outside(deps, b) <= Outside(deps, a)
  {
    if deps != [] {
      OutsideShrinks(deps[..|deps| - 1], a, b);
    }
  }

  // ---------------------------------------------------------------- building the graph

  type Counters = map<string, int>
  type Children = map<string, seq<string>>

  /** The edges of `n` that have been recorded: its first `b` dependencies. */
  ghost predicate Recorded(n: Node, known: set<string>, indeg: Counters, children: Children, b: nat) {
    && b <= |n.deps| && n.id in indeg && indeg[n.id] == b
    && forall d :: d in known ==> d in children && Count(children[d], n.id) == Count(n.deps[..b], d)
  }

  /** Every edge is recorded, as often as it is declared. */
  ghost predicate GraphOf(nodes: seq<Node>, indeg: Counters, children: Children) {
    && (forall n :: n in nodes ==> Recorded(n, Ids(nodes), indeg, children, |n.deps|))
    && forall d :: d in Ids(nodes) ==> d in children && forall c :: c in children[d] ==> c in Ids(nodes)
  }

  ghost predicate Building(nodes: seq<Node>, indeg: Counters, children: Children, a: nat, b: nat) {
    && a <= |nodes|
    && (forall j :: 0 <= j < |nodes| ==> (a == j ==> b <= |nodes[j].deps|))
    && (forall j :: 0 <= j < |nodes| ==>
         Recorded(nodes[j], Ids(nodes), indeg, children, if j < a then |nodes[j].deps| else if j == a then b else 0))
    && forall d :: d in Ids(nodes) ==> d in children && forall c :: c in children[d] ==> c in Ids(nodes)
  }

  lemma RecordOther(m: Node, known: set<string>, indeg: Counters, children: Children, k: nat, id: string, dep: string)
    requires Recorded(m, known, indeg, children, k) && m.id != id && dep in children && id in indeg
    ensures Recorded(m, known, indeg[id := indeg[id] + 1], children[dep := children[dep] + [id]], k)
  {
    CountSnoc(children[dep], id, m.id);
  }

  lemma RecordOwn(n: Node, known: set<string>, indeg: Counters, children: Children, b: nat)
    requires Recorded(n, known, indeg, children, b) && b < |n.deps| && n.deps[b] in known
    ensures n.deps[b] in children
    ensures var dep := n.deps[b];
      Recorded(n, known, indeg[n.id := indeg[n.id] + 1], children[dep := children[dep] + [n.id]], b + 1)
  {
    var dep := n.deps[b];
    var children' := children[dep := children[dep] + [n.id]];
    assert n.deps[..b + 1] == n.deps[..b] + [dep];
    forall d | d in known ensures Count(children'[d], n.id) == Count(n.deps[..b + 1], d) {
      CountSnoc(n.deps[..b], dep, d);
      CountSnoc(children[dep], n.id, n.id);
    }
  }

  lemma BuildStart(nodes: seq<Node>)
    ensures Building(nodes, map i | i in Ids(nodes) :: 0, map i | i in Ids(nodes) :: [], 0, 0)
  {
    forall j | 0 <= j < |nodes| ensures nodes[j].id in Ids(nodes) && nodes[j].deps[..0] == [] {
    }
  }

  lemma BuildStep(nodes: seq<Node>, indeg: Counters, children: Children, a: nat, b: nat)
    requires Distinct(Order(nodes)) && Building(nodes, indeg, children, a, b)
    requires a < |nodes| && b < |nodes[a].deps| && nodes[a].deps[b] in Ids(nodes)
    ensures nodes[a].id in indeg && nodes[a].deps[b] in children
    ensures var (id, dep) := (nodes[a].id, nodes[a].deps[b]);
      Building(nodes, indeg[id := indeg[id] + 1], children[dep := children[dep] + [id]], a, b + 1)
  {
    var (n, dep) := (nodes[a], nodes[a].deps[b]);
    assert n.id in Ids(nodes);
    assert Recorded(n, Ids(nodes), indeg, children, b) && n.id in indeg;
    hide Recorded, Ids;
    RecordOwn(n, Ids(nodes), indeg, children, b);
    forall j | 0 <= j < |nodes| && j != a
      ensures Recorded(nodes[j], Ids(nodes), indeg[n.id := indeg[n.id] + 1], children[dep := children[dep] + [n.id]],
                       if j < a then |nodes[j].deps| else 0)
    {
      assert Order(nodes)[j] != Order(nodes)[a];
      RecordOther(nodes[j], Ids(nodes), indeg, children, if j < a then |nodes[j].deps| else 0, n.id, dep);
    }
  }

  lemma BuildNext(nodes: seq<Node>, indeg: Counters, children: Children, a: nat)
    requires a < |nodes| && Building(nodes, indeg, children, a, |nodes[a].deps|)
    ensures Building(nodes, indeg, children, a + 1, 0)
  {
    hide Recorded, Ids;
  }

  lemma BuildDone(nodes: seq<Node>, indeg: Counters, children: Children)
    requires Building(nodes, indeg, children, |nodes|, 0)
    ensures GraphOf(nodes, indeg, children)
  {
    hide Recorded, Ids;
  }

  method BuildGraph(nodes: seq<Node>) returns (bad: Option<WaveError>, indeg: Counters, children: Children)
    requires Distinct(Order(nodes))
    ensures bad == BadEdge(nodes, Ids(nodes))
    ensures bad.None? ==> GraphOf(nodes, indeg, children)
  {
    hide Building, GraphOf, Recorded, Ids;
    var known := Ids(nodes);
    indeg := map i | i in known :: 0;
    children := map i | i in known :: [];
    BuildStart(nodes);
    var a := 0;
    while a < |nodes|
      invariant a <= |nodes| && Building(nodes, indeg, children, a, 0)
      invariant BadEdge(nodes, known) == BadEdge(nodes[a..], known)
    {
      var node := nodes[a];
      assert nodes[a..][0] == node && nodes[a..][1..] == nodes[a + 1..];
      var b := 0;
      while b < |node.deps|
        invariant b <= |node.deps| && Building(nodes, indeg, children, a, b)
        invariant BadDep(node.id, node.deps, known) == BadDep(node.id, node.deps[b..], known)
      {
        var dep := node.deps[b];
        assert node.deps[b..][0] == dep && node.deps[b..][1..] == node.deps[b + 1..];
        if dep == node.id {
          return Some(SelfDependency(node.id)), indeg, children;
        }
        if dep !in known {
          return Some(UnknownDependency(node.id, dep)), indeg, children;
        }
        BuildStep(nodes, indeg, children, a, b);
        indeg := indeg[node.id := indeg[node.id] + 1];
        children := children[dep := children[dep] + [node.id]];
        b := b + 1;
      }
      BuildNext(nodes, indeg, children, a);
      a := a + 1;
    }
    BuildDone(nodes, indeg, children);
    bad := None;
  }


  // ---------------------------------------------------------------- releasing a wave

  /** The counter of `n` when `placed` has been released, and of one more id the children in `part`. */
  ghost predicate CountedAt(n: Node, indeg: Counters, placed: set<string>, part: seq<string>) {
    n.id in indeg && indeg[n.id] == Outside(n.deps, placed) - Count(part, n.id)
  }

  ghost predicate Counted(nodes: seq<Node>, indeg: Counters, placed: set<string>, part: seq<string>) {
    forall n :: n in nodes ==> CountedAt(n, indeg, placed, part)
  }

  /** Whether the counter of `n` went from above zero to zero since `before` was placed. */
  ghost predicate FreedAt(n: Node, indeg: Counters, before: set<string>, freed: set<string>) {
    n.id in indeg && (n.id in freed <==> indeg[n.id] == 0 && Outside(n.deps, before) > 0)
  }

  ghost predicate FreedSince(nodes: seq<Node>, indeg: Counters, before: set<string>, freed: set<string>) {
    forall n :: n in nodes ==> FreedAt(n, indeg, before, freed)
  }

  /** Each child list holds an item as often as the item declares the dependency. */
  ghost predicate ChildrenOf(nodes: seq<Node>, children: Children) {
    forall d :: d in Ids(nodes) ==> d in children && ChildList(nodes, children[d], d)
  }

  ghost predicate ChildList(nodes: seq<Node>, cs: seq<string>, d: string) {
    (forall c :: c in cs ==> c in Ids(nodes)) && forall n :: n in nodes ==> Count(cs, n.id) == Count(n.deps, d)
  }

  lemma GraphStart(nodes: seq<Node>, indeg: Counters, children: Children)
    requires GraphOf(nodes, indeg, children)
    ensures ChildrenOf(nodes, children) && Counted(nodes, indeg, {}, [])
  {
    forall n | n in nodes ensures CountedAt(n, indeg, {}, []) && n.deps[..|n.deps|] == n.deps {
      assert Recorded(n, Ids(nodes), indeg, children, |n.deps|);
      OutsideNone(n.deps);
    }
    forall d | d in Ids(nodes) ensures d in children && ChildList(nodes, children[d], d) {
      forall n | n in nodes ensures Count(children[d], n.id) == Count(n.deps, d) {
        assert Recorded(n, Ids(nodes), indeg, children, |n.deps|);
      }
    }
  }

  lemma ReleaseOther(
    n: Node, indeg: Counters, before: set<string>, placed: set<string>, part: seq<string>, c: string,
    freed: set<string>)
    requires c in indeg && n.id != c && CountedAt(n, indeg, placed, part) && FreedAt(n, indeg, before, freed)
    ensures var indeg' := indeg[c := indeg[c] - 1];
      && CountedAt(n, indeg', placed, part + [c])
      && FreedAt(n, indeg', before, if indeg'[c] == 0 then freed + {c} else freed)
  {
    CountSnoc(part, c, n.id);
  }

  lemma ReleaseOwn(
    n: Node, indeg: Counters, before: set<string>, placed: set<string>, cs: seq<string>, m: nat, r: string,
    freed: set<string>)
    requires before <= placed && r !in placed && m < |cs| && cs[m] == n.id && Count(cs, n.id) == Count(n.deps, r)
    requires CountedAt(n, indeg, placed, cs[..m]) && FreedAt(n, indeg, before, freed)
    ensures var indeg' := indeg[n.id := indeg[n.id] - 1];
      && CountedAt(n, indeg', placed, cs[..m + 1])
      && FreedAt(n, indeg', before, if indeg'[n.id] == 0 then freed + {n.id} else freed)
  {
    assert cs[..m + 1] == cs[..m] + [n.id];
    CountSnoc(cs[..m], n.id, n.id);
    CountPrefix(cs, m + 1, n.id);
    OutsideStep(n.deps, placed, r);
    OutsideShrinks(n.deps, before, placed);
  }

  lemma ReleaseStep(
    nodes: seq<Node>, indeg: Counters, cs: seq<string>, before: set<string>, placed: set<string>,
    r: string, m: nat, freed: set<string>)
    requires Distinct(Order(nodes)) && ChildList(nodes, cs, r)
    requires before <= placed && r !in placed && m < |cs|
    requires Counted(nodes, indeg, placed, cs[..m]) && FreedSince(nodes, indeg, before, freed)
    ensures cs[m] in indeg
    ensures var c := cs[m];
      var indeg' := indeg[c := indeg[c] - 1];
      && Counted(nodes, indeg', placed, cs[..m + 1])
      && FreedSince(nodes, indeg', before, if indeg'[c] == 0 then freed + {c} else freed)
  {
    var c := cs[m];
    assert c in cs && c in Ids(nodes);
    var own :| own in nodes && own.id == c;
    assert CountedAt(own, indeg, placed, cs[..m]);
    assert cs[..m + 1] == cs[..m] + [c];
    hide CountedAt, FreedAt, Ids;
    forall n | n in nodes
      ensures var indeg' := indeg[c := indeg[c] - 1];
        && CountedAt(n, indeg', placed, cs[..m + 1])
        && FreedAt(n, indeg', before, if indeg'[c] == 0 then freed + {c} else freed)
    {
      assert CountedAt(n, indeg, placed, cs[..m]) && FreedAt(n, indeg, before, freed);
      if n.id == c {
        ReleaseOwn(n, indeg, before, placed, cs, m, r, freed);
      } else {
        ReleaseOther(n, indeg, before, placed, cs[..m], c, freed);
      }
    }
  }

  lemma ReleaseDone(nodes: seq<Node>, indeg: Counters, cs: seq<string>, placed: set<string>, r: string)
    requires ChildList(nodes, cs, r) && r !in placed && Counted(nodes, indeg, placed, cs)
    ensures Counted(nodes, indeg, placed + {r}, [])
  {
    forall n | n in nodes ensures CountedAt(n, indeg, placed + {r}, []) {
      assert CountedAt(n, indeg, placed, cs);
      OutsideStep(n.deps, placed, r);
    }
  }

  /** Takes every edge out of the ready items off the counters, and collects the items this frees. */
  method ReleaseChildren(nodes: seq<Node>, indeg0: Counters, children: Children, ghost placed: set<string>,
                         ready: seq<string>)
    returns (indeg: Counters, freed: set<string>)
    requires Distinct(Order(nodes)) && ChildrenOf(nodes, children) && Counted(nodes, indeg0, placed, [])
    requires Distinct(ready) && forall i :: i in ready ==> i in Ids(nodes) && i !in placed
    ensures Counted(nodes, indeg, placed + Elements(ready), [])
    ensures FreedSince(nodes, indeg, placed, freed)
  {
    hide Counted, FreedSince, ChildList, Ids;
    indeg, freed := indeg0, {};
    ghost var done := placed;
    assert FreedSince(nodes, indeg, placed, {}) by { NothingFreed(nodes, indeg, placed); }
    var k := 0;
    while k < |ready|
      invariant k <= |ready| && placed <= done && done == placed + Elements(ready[..k])
      invariant Counted(nodes, indeg, done, []) && FreedSince(nodes, indeg, placed, freed)
    {
      var r := ready[k];
      assert r in ready && r !in done by { FreshAt(ready, k); }
      var cs := children[r];
      var m := 0;
      assert cs[..0] == [];
      while m < |cs|
        invariant m <= |cs|
        invariant Counted(nodes, indeg, done, cs[..m]) && FreedSince(nodes, indeg, placed, freed)
      {
        var child := cs[m];
        ReleaseStep(nodes, indeg, cs, placed, done, r, m, freed);
        indeg := indeg[child := indeg[child] - 1];
        if indeg[child] == 0 {
          freed := freed + {child};
        }
        m := m + 1;
      }
      assert cs[..m] == cs;
      ReleaseDone(nodes, indeg, cs, done, r);
      ElementsSnoc(ready, k);
      done := done + {r};
      k := k + 1;
    }
    assert ready[..k] == ready;
  }

  lemma NothingFreed(nodes: seq<Node>, indeg: Counters, placed: set<string>)
    requires Counted(nodes, indeg, placed, [])
    ensures FreedSince(nodes, indeg, placed, {})
  {
    forall n | n in nodes ensures FreedAt(n, indeg, placed, {}) {
      assert CountedAt(n, indeg, placed, []);
    }
  }

  lemma FreshAt(ready: seq<string>, k: nat)
    requires Distinct(ready) && k < |ready|
    ensures ready[k] in ready && ready[k] !in Elements(ready[..k])
  {
  }

  lemma ElementsSnoc(ready: seq<string>, k: nat)
    requires k < |ready|
    ensures Elements(ready[..k + 1]) == Elements(ready[..k]) + {ready[k]}
  {
    assert ready[..k + 1] == ready[..k] + [ready[k]];
  }

  // ---------------------------------------------------------------- the ready list

  /** `[i for i in order if i in s]` */
  function KeepIn(order: seq<string>, s: set<string>): seq<string> {
    if order == [] then [] else (if order[0] in s then [order[0]] else []) + KeepIn(order[1..], s)
  }

  lemma {:induction false} SelectIsKeep(nodes: seq<Node>, placed: set<string>, s: set<string>)
    requires forall n :: n in nodes ==> (n.id in s <==> Free(n, placed))
    ensures KeepIn(Order(nodes), s) == Select(nodes, placed)
  {
    if nodes != [] {
      hide Free;
      assert nodes[0] in nodes;
      SelectIsKeep(nodes[1..], placed, s);
      assert Order(nodes)[1..] == Order(nodes[1..]);
    }
  }

  /** A placed item has nothing left to wait for. */
  ghost predicate Settled(nodes: seq<Node>, placed: set<string>) {
    forall n :: n in nodes && n.id in placed ==> Outside(n.deps, placed) == 0
  }

  lemma FirstReady(nodes: seq<Node>, indeg: Counters)
    requires Counted(nodes, indeg, {}, [])
    ensures KeepIn(Order(nodes), set i | i in indeg && indeg[i] == 0) == Select(nodes, {})
  {
    var s := set i | i in indeg && indeg[i] == 0;
    forall n | n in nodes ensures n.id in s <==> Free(n, {}) {
      assert CountedAt(n, indeg, {}, []);
      OutsideZero(n.deps, {});
    }
    SelectIsKeep(nodes, {}, s);
  }

  lemma ReadyItem(nodes: seq<Node>, placed: set<string>, n: Node)
    requires Distinct(Order(nodes)) && n in nodes
    ensures n.id in Select(nodes, placed) <==> n.id !in placed && Outside(n.deps, placed) == 0
  {
    OutsideZero(n.deps, placed);
    if n.id in Select(nodes, placed) {
      var m :| m in nodes && m.id == n.id && Free(m, placed);
      SameNode(nodes, n, m);
    }
  }

  lemma FreedIsFree(nodes: seq<Node>, indeg: Counters, placed: set<string>, freed: set<string>, n: Node)
    requires Distinct(Order(nodes)) && n in nodes && Settled(nodes, placed)
    requires var after := placed + Elements(Select(nodes, placed));
      CountedAt(n, indeg, after, []) && FreedAt(n, indeg, placed, freed)
    ensures var after := placed + Elements(Select(nodes, placed));
      && (n.id in freed <==> Free(n, after))
      && (n.id in after ==> Outside(n.deps, after) == 0)
  {
    var after := placed + Elements(Select(nodes, placed));
    hide Select;
    ReadyItem(nodes, placed, n);
    OutsideZero(n.deps, after);
    OutsideShrinks(n.deps, placed, after);
  }

  lemma NextReady(nodes: seq<Node>, indeg: Counters, placed: set<string>, freed: set<string>)
    requires Distinct(Order(nodes)) && Settled(nodes, placed)
    requires var after := placed + Elements(Select(nodes, placed));
      Counted(nodes, indeg, after, []) && FreedSince(nodes, indeg, placed, freed)
    ensures var after := placed + Elements(Select(nodes, placed));
      Settled(nodes, after) && KeepIn(Order(nodes), freed) == Select(nodes, after)
  {
    var after := placed + Elements(Select(nodes, placed));
    forall n | n in nodes
      ensures (n.id in freed <==> Free(n, after)) && (n.id in after ==> Outside(n.deps, after) == 0)
    {
      assert CountedAt(n, indeg, after, []) && FreedAt(n, indeg, placed, freed);
      hide CountedAt, FreedAt, Select, Free;
      FreedIsFree(nodes, indeg, placed, freed, n);
    }
    SelectIsKeep(nodes, after, freed);
  }

  lemma SelectFresh(nodes: seq<Node>, placed: set<string>)
    ensures forall i :: i in Select(nodes, placed) ==> i in Ids(nodes) && i !in placed
    ensures Elements(Select(nodes, placed)) <= Ids(nodes)
    ensures Elements(Select(nodes, placed)) !! placed
  {
    forall i | i in Select(nodes, placed) ensures i in Ids(nodes) && i !in placed {
      SelectMember(nodes, placed, i);
    }
  }

  lemma {:induction false} DistinctSize(s: seq<string>)
    requires Distinct(s)
    ensures |Elements(s)| == |s|
  {
    if s == [] {
      assert Elements(s) == {};
    } else {
      var t := s[..|s| - 1];
      DistinctSize(t);
      assert Elements(s) == Elements(t) + {s[|s| - 1]};
    }
  }

  lemma {:induction false} GroupedSnoc(ls: seq<seq<string>>, layer: seq<string>, prefix: string, k: nat)
    ensures Grouped(ls + [layer], prefix, k) == Grouped(ls, prefix, k) + [Wave(prefix + NatText(k + |ls|), layer)]
  {
    hide NatText;
    if ls == [] {
      assert ls + [layer] == [layer] && [layer][1..] == [];
    } else {
      assert (ls + [layer])[1..] == ls[1..] + [layer];
      GroupedSnoc(ls[1..], layer, prefix, k + 1);
    }
  }

  lemma {:induction false} UnionSnoc(ls: seq<seq<string>>, layer: seq<string>)
    ensures Union(ls + [layer]) == Union(ls) + Elements(layer)
  {
    if ls == [] {
      assert ls + [layer] == [layer] && [layer][1..] == [];
    } else {
      assert (ls + [layer])[1..] == ls[1..] + [layer];
      UnionSnoc(ls[1..], layer);
    }
  }

  // ---------------------------------------------------------------- the planner

  /** A normalization continued by nodes that were read before. */
  function After(nodes: seq<Node>, r: Result<seq<Node>, WaveError>): Result<seq<Node>, WaveError> {
    if r.Err? then r else Ok(nodes + r.value)
  }

  lemma AfterStep(nodes: seq<Node>, items: seq<Item>)
    requires items != [] && items[0].id.Some? && Strip(items[0].id.value) != ""
    ensures After(nodes, Normalize(items))
         == After(nodes + [Node(items[0].id.value, items[0].dependsOn)], Normalize(items[1..]))
  {
    hide Strip;
    var (x, rest) := (Node(items[0].id.value, items[0].dependsOn), Normalize(items[1..]));
    if rest.Ok? {
      assert nodes + ([x] + rest.value) == nodes + [x] + rest.value;
    }
  }

  method NormalizeItems(items: seq<Item>) returns (r: Result<seq<Node>, WaveError>)
    ensures r == Normalize(items)
  {
    hide Strip;
    var nodes: seq<Node> := [];
    var i := 0;
    assert items[0..] == items;
    AfterNone(Normalize(items));
    while i < |items|
      invariant i <= |items|
      invariant Normalize(items) == After(nodes, Normalize(items[i..]))
    {
      var item := items[i];
      assert items[i..][0] == item && items[i..][1..] == items[i + 1..];
      if item.id.None? || Strip(item.id.value) == "" {
        return Err(MissingId);
      }
      AfterStep(nodes, items[i..]);
      nodes := nodes + [Node(item.id.value, item.dependsOn)];
      i := i + 1;
    }
    assert nodes + [] == nodes;
    r := Ok(nodes);
  }

  lemma AfterNone(r: Result<seq<Node>, WaveError>)
    ensures After([], r) == r
  {
    if r.Ok? {
      assert [] + r.value == r.value;
    }
  }

  /** Layers the items into waves, or says why it cannot be done. */
  method PlanWaves(items: seq<Item>, prefix: string) returns (r: Result<seq<Wave>, WaveError>)
    ensures r == PlanOf(items, prefix)
  {
    var normal := NormalizeItems(items);
    if normal.Err? {
      return Err(normal.error);
    }
    var nodes := normal.value;
    var order := Order(nodes);
    NothingRepeated(order);
    if Repeated(order) != {} {
      return Err(DuplicateIds(Repeated(order)));
    }
    var bad, indeg, children := BuildGraph(nodes);
    if bad.Some? {
      return Err(bad.value);
    }
    GraphStart(nodes, indeg, children);
    r := LayerNodes(nodes, indeg, children, prefix);
  }

  ghost predicate Layering(nodes: seq<Node>, done: seq<seq<string>>, placed: set<string>, waves: seq<Wave>,
                           prefix: string) {
    && placed == Union(done) && placed <= Ids(nodes)
    && Layers(nodes, {}) == done + Layers(nodes, placed)
    && waves == Grouped(done, prefix, 1)
    && Settled(nodes, placed)
  }

  lemma LayeringStep(nodes: seq<Node>, done: seq<seq<string>>, placed: set<string>, waves: seq<Wave>, prefix: string)
    requires Layering(nodes, done, placed, waves, prefix) && Select(nodes, placed) != [] && |waves| == |done|
    requires Settled(nodes, placed + Elements(Select(nodes, placed)))
    ensures var layer := Select(nodes, placed);
      Layering(nodes, done + [layer], placed + Elements(layer),
               waves + [Wave(prefix + NatText(|waves| + 1), layer)], prefix)
  {
    hide Select, Layers, Settled, Ids, NatText;
    var layer := Select(nodes, placed);
    LayersStep(nodes, placed);
    UnionSnoc(done, layer);
    GroupedSnoc(done, layer, prefix, 1);
    SelectFresh(nodes, placed);
    assert done + ([layer] + Layers(nodes, placed + Elements(layer)))
        == done + [layer] + Layers(nodes, placed + Elements(layer));
  }

  method LayerNodes(nodes: seq<Node>, indeg0: Counters, children: Children, prefix: string)
    returns (r: Result<seq<Wave>, WaveError>)
    requires Distinct(Order(nodes)) && ChildrenOf(nodes, children) && Counted(nodes, indeg0, {}, [])
    ensures r == var layers := Layers(nodes, {});
      if Union(layers) != Ids(nodes) then Err(DependencyCycle(Ids(nodes) - Union(layers)))
      else Ok(Grouped(layers, prefix, 1))
  {
    hide Layers, Counted, ChildrenOf, FreedSince, Layering, NatText, Select, Settled, Union, KeepIn, Distinct;
    var order := Order(nodes);
    var indeg := indeg0;
    var waves: seq<Wave>, placed := [], 0;
    ghost var done: seq<seq<string>>, seen: set<string> := [], {};
    LayeringStart(nodes, prefix);
    FirstReady(nodes, indeg);
    var ready := KeepIn(order, set i | i in indeg && indeg[i] == 0);
    while ready != []
      invariant Layering(nodes, done, seen, waves, prefix) && |waves| == |done|
      invariant Settled(nodes, seen) && Counted(nodes, indeg, seen, [])
      invariant ready == Select(nodes, seen) && placed == |seen|
      decreases |Ids(nodes) - seen|
    {
      LayerShrinks(nodes, seen);
      SelectFresh(nodes, seen);
      SelectDistinct(nodes, seen);
      DistinctSize(ready);
      waves := waves + [Wave(prefix + NatText(|waves| + 1), ready)];
      placed := placed + |ready|;
      var freed;
      indeg, freed := ReleaseChildren(nodes, indeg, children, seen, ready);
      NextReady(nodes, indeg, seen, freed);
      LayeringStep(nodes, done, seen, waves[..|waves| - 1], prefix);
      assert waves[..|waves| - 1] + [waves[|waves| - 1]] == waves;
      done := done + [ready];
      seen := seen + Elements(ready);
      ready := KeepIn(order, freed);
    }
    LayeringEnd(nodes, done, seen, waves, prefix);
    StuckIds(nodes, indeg, seen);
    if placed != |order| {
      r := Err(DependencyCycle(set i | i in order && i in indeg && indeg[i] > 0));
    } else {
      r := Ok(waves);
    }
  }

  lemma LayeringStart(nodes: seq<Node>, prefix: string)
    ensures Layering(nodes, [], {}, [], prefix) && Settled(nodes, {})
  {
    assert [] + Layers(nodes, {}) == Layers(nodes, {});
  }

  lemma LayeringEnd(nodes: seq<Node>, done: seq<seq<string>>, seen: set<string>, waves: seq<Wave>, prefix: string)
    requires Layering(nodes, done, seen, waves, prefix) && Select(nodes, seen) == []
    ensures Union(Layers(nodes, {})) == seen && waves == Grouped(Layers(nodes, {}), prefix, 1) && seen <= Ids(nodes)
  {
    hide Settled;
    assert done + [] == done;
  }

  /** What is stuck is what was not placed. */
  lemma StuckIds(nodes: seq<Node>, indeg: Counters, seen: set<string>)
    requires Distinct(Order(nodes)) && Select(nodes, seen) == [] && Settled(nodes, seen) && seen <= Ids(nodes)
    requires Counted(nodes, indeg, seen, [])
    ensures (set i | i in Order(nodes) && i in indeg && indeg[i] > 0) == Ids(nodes) - seen
    ensures |Order(nodes)| == |seen| <==> seen == Ids(nodes)
  {
    hide Distinct, Settled, Select;
    var order := Order(nodes);
    forall n | n in nodes ensures n.id in order && n.id in indeg && (indeg[n.id] > 0 <==> n.id !in seen) {
      var j :| 0 <= j < |nodes| && nodes[j] == n;
      assert order[j] == n.id;
      assert CountedAt(n, indeg, seen, []);
      ReadyItem(nodes, seen, n);
      SettledAt(nodes, seen, n);
    }
    OrderIsIds(nodes);
    DistinctSize(order);
    if seen != Ids(nodes) {
      var i := Missing(seen, Ids(nodes));
      SubsetSize(seen, Ids(nodes) - {i});
    }
  }

  lemma SettledAt(nodes: seq<Node>, seen: set<string>, n: Node)
    requires Settled(nodes, seen) && n in nodes
    ensures n.id in seen ==> Outside(n.deps, seen) == 0
  {
  }

  lemma OrderIsIds(nodes: seq<Node>)
    ensures Elements(Order(nodes)) == Ids(nodes)
    ensures forall i :: i in Order(nodes) ==> exists n :: n in nodes && n.id == i
  {
    var order := Order(nodes);
    forall i | i in order ensures i in Ids(nodes) {
      var j :| 0 <= j < |order| && order[j] == i;
      assert nodes[j] in nodes;
    }
    forall i | i in Ids(nodes) ensures i in order {
      var n :| n in nodes && n.id == i;
      var j :| 0 <= j < |nodes| && nodes[j] == n;
      assert order[j] == i;
    }
  }
}
