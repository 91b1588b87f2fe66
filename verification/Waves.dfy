/** Wave planning: what a dependency layering is, and the laws of the layering. */
module Waves {
  import opened Collections
  import opened Options
  import opened Text

  /** A work item as declared; an absent or blank id is refused. */
  datatype Item = Item(id: Option<string>, dependsOn: seq<string>)

  datatype Node = Node(id: string, deps: seq<string>)

  datatype WaveError =
    | MissingId
    | DuplicateIds(ids: set<string>)
    | SelfDependency(id: string)
    | UnknownDependency(id: string, dep: string)
    | DependencyCycle(stuck: set<string>)

  datatype Wave = Wave(group: string, ids: seq<string>)

  // ---------------------------------------------------------------- input checks

  function Normalize(items: seq<Item>): Result<seq<Node>, WaveError> {
    if items == [] then Ok([])
    else
      var id := items[0].id;
      if id.None? || Strip(id.value) == "" then Err(MissingId)
      else
        var rest := Normalize(items[1..]);
        if rest.Err? then rest else Ok([Node(id.value, items[0].dependsOn)] + rest.value)
  }

  function Order(nodes: seq<Node>): (r: seq<string>)
    ensures |r| == |nodes|
    ensures forall i :: 0 <= i < |nodes| ==> r[i] == nodes[i].id
  {
    seq(|nodes|, i requires 0 <= i < |nodes| => nodes[i].id)
  }

  function Ids(nodes: seq<Node>): set<string> {
    set n | n in nodes :: n.id
  }

  function Repeated(ids: seq<string>): set<string> {
    set i | 0 <= i < |ids| && (exists j :: 0 <= j < |ids| && j != i && ids[j] == ids[i]) :: ids[i]
  }

  /** The first edge, in declaration order, that cannot be: to the item itself or to no item. */
  function BadDep(id: string, deps: seq<string>, known: set<string>): Option<WaveError> {
    if deps == [] then None
    else if deps[0] == id then Some(SelfDependency(id))
    else if deps[0] !in known then Some(UnknownDependency(id, deps[0]))
    else BadDep(id, deps[1..], known)
  }

  function BadEdge(nodes: seq<Node>, known: set<string>): Option<WaveError> {
    if nodes == [] then None
    else
      var bad := BadDep(nodes[0].id, nodes[0].deps, known);
      if bad.Some? then bad else BadEdge(nodes[1..], known)
  }

  // ---------------------------------------------------------------- layers

  predicate Free(n: Node, placed: set<string>) {
    n.id !in placed && forall d :: d in n.deps ==> d in placed
  }

  /** The items, in declaration order, that are not placed and whose dependencies all are. */
  function Select(nodes: seq<Node>, placed: set<string>): (r: seq<string>)
    ensures forall i :: i in r <==> exists n :: n in nodes && n.id == i && Free(n, placed)
  {
    if nodes == [] then []
    else (if Free(nodes[0], placed) then [nodes[0].id] else []) + Select(nodes[1..], placed)
  }

  function Elements<T>(s: seq<T>): set<T> {
    set x | x in s
  }

  function Layers(nodes: seq<Node>, placed: set<string>): seq<seq<string>>
    decreases |Ids(nodes) - placed|
  {
    var layer := Select(nodes, placed);
    if layer == [] then []
    else
      LayerShrinks(nodes, placed);
      [layer] + Layers(nodes, placed + Elements(layer))
  }

  lemma LayerShrinks(nodes: seq<Node>, placed: set<string>)
    requires Select(nodes, placed) != []
    ensures |Ids(nodes) - (placed + Elements(Select(nodes, placed)))| < |Ids(nodes) - placed|
  {
    var layer := Select(nodes, placed);
    hide Select, Ids;
    assert layer[0] in layer;
    SelectMember(nodes, placed, layer[0]);
    ShrinkSet(Ids(nodes), placed, Elements(layer), layer[0]);
  }

  lemma SelectMember(nodes: seq<Node>, placed: set<string>, i: string)
    requires i in Select(nodes, placed)
    ensures i in Ids(nodes) && i !in placed
  {
    var n :| n in nodes && n.id == i && Free(n, placed);
  }

  lemma ShrinkSet(a: set<string>, p: set<string>, e: set<string>, i: string)
    requires i in a && i !in p && i in e
    ensures |a - (p + e)| < |a - p|
  {
    SubsetSize(a - (p + e), a - p - {i});
  }

  function Union(layers: seq<seq<string>>): set<string> {
    if layers == [] then {} else Elements(layers[0]) + Union(layers[1..])
  }

  function Grouped(layers: seq<seq<string>>, prefix: string, k: nat): seq<Wave> {
    if layers == [] then []
    else [Wave(prefix + NatText(k), layers[0])] + Grouped(layers[1..], prefix, k + 1)
  }

  /** The whole plan, or the first reason why there is none. */
  function PlanOf(items: seq<Item>, prefix: string): Result<seq<Wave>, WaveError> {
    var nodes := Normalize(items);
    if nodes.Err? then Err(nodes.error)
    else PlanOfNodes(nodes.value, prefix)
  }

  function PlanOfNodes(nodes: seq<Node>, prefix: string): Result<seq<Wave>, WaveError> {
    if Repeated(Order(nodes)) != {} then Err(DuplicateIds(Repeated(Order(nodes))))
    else
      var bad := BadEdge(nodes, Ids(nodes));
      if bad.Some? then Err(bad.value)
      else
        var layers := Layers(nodes, {});
        if Union(layers) != Ids(nodes) then Err(DependencyCycle(Ids(nodes) - Union(layers)))
        else Ok(Grouped(layers, prefix, 1))
  }

  // ---------------------------------------------------------------- the dependency graph

  /** A graph that passed the checks. */
  predicate Checked(nodes: seq<Node>) {
    Distinct(Order(nodes)) && forall n :: n in nodes ==> GoodEdges(n, Ids(nodes))
  }

  predicate GoodEdges(n: Node, known: set<string>) {
    forall d :: d in n.deps ==> d != n.id && d in known
  }

  /** `d` is a declared dependency of `i`. */
  predicate DependsOn(nodes: seq<Node>, i: string, d: string) {
    exists n :: n in nodes && n.id == i && d in n.deps
  }

  /** A dependency chain: each item is a dependency of the next. */
  predicate IsChain(nodes: seq<Node>, p: seq<string>) {
    && p != [] && (forall k :: 0 <= k < |p| ==> p[k] in Ids(nodes))
    && forall k :: 0 <= k < |p| - 1 ==> DependsOn(nodes, p[k + 1], p[k])
  }

  ghost predicate IsCycle(nodes: seq<Node>, p: seq<string>) {
    IsChain(nodes, p) && |p| >= 2 && p[0] == p[|p| - 1]
  }

  lemma {:induction false} NoBadDep(id: string, deps: seq<string>, known: set<string>)
    ensures BadDep(id, deps, known) == None <==> GoodEdges(Node(id, deps), known)
  {
    if deps != [] {
      NoBadDep(id, deps[1..], known);
      assert forall d :: d in deps <==> d == deps[0] || d in deps[1..];
    }
  }

  lemma {:induction false} NoBadEdge(nodes: seq<Node>, known: set<string>)
    ensures BadEdge(nodes, known) == None <==> forall n :: n in nodes ==> GoodEdges(n, known)
  {
    if nodes != [] {
      hide GoodEdges;
      NoBadDep(nodes[0].id, nodes[0].deps, known);
      NoBadEdge(nodes[1..], known);
      assert forall n :: n in nodes <==> n == nodes[0] || n in nodes[1..];
    }
  }

  /** The checks before the layering accept exactly the graphs with unique ids, no self edge and no
      dangling edge. */
  lemma ChecksExact(nodes: seq<Node>)
    ensures Checked(nodes) <==> Repeated(Order(nodes)) == {} && BadEdge(nodes, Ids(nodes)) == None
  {
    NoBadEdge(nodes, Ids(nodes));
    NothingRepeated(Order(nodes));
  }

  lemma NothingRepeated(ids: seq<string>)
    ensures Repeated(ids) == {} <==> Distinct(ids)
  {
    if !Distinct(ids) {
      var i, j :| 0 <= i < j < |ids| && ids[i] == ids[j];
      assert ids[i] in Repeated(ids);
    }
    if x :| x in Repeated(ids) {
      var i, j :| 0 <= i < |ids| && 0 <= j < |ids| && j != i && ids[j] == ids[i] == x;
    }
  }

  // ---------------------------------------------------------------- laws of the layers

  lemma LayersStep(nodes: seq<Node>, placed: set<string>)
    ensures var (ls, layer) := (Layers(nodes, placed), Select(nodes, placed));
      if layer == [] then ls == [] else ls == [layer] + Layers(nodes, placed + Elements(layer))
  {
  }

  lemma {:induction false} LayerAt(nodes: seq<Node>, placed: set<string>, k: nat)
    requires k <= |Layers(nodes, placed)|
    ensures var ls := Layers(nodes, placed);
      Select(nodes, placed + Union(ls[..k])) == if k < |ls| then ls[k] else []
    decreases k
  {
    hide Layers, Select;
    var ls := Layers(nodes, placed);
    LayersStep(nodes, placed);
    if k == 0 {
      assert placed + Union(ls[..0]) == placed;
    } else {
      var next := placed + Elements(ls[0]);
      LayerAt(nodes, next, k - 1);
      UnionHead(ls, k);
      assert placed + (Elements(ls[0]) + Union(ls[1..][..k - 1])) == next + Union(ls[1..][..k - 1]);
    }
  }

  lemma UnionHead(ls: seq<seq<string>>, k: nat)
    requires 0 < k <= |ls|
    ensures Union(ls[..k]) == Elements(ls[0]) + Union(ls[1..][..k - 1])
  {
    assert ls[..k][1..] == ls[1..][..k - 1];
  }

  lemma {:induction false} InUnion(layers: seq<seq<string>>, i: string)
    ensures i in Union(layers) <==> exists k :: 0 <= k < |layers| && i in layers[k]
  {
    if layers != [] {
      InUnion(layers[1..], i);
      if i in Union(layers[1..]) {
        var k :| 0 <= k < |layers[1..]| && i in layers[1..][k];
        assert i in layers[k + 1];
      }
      if k :| 0 < k < |layers| && i in layers[k] {
        assert i in layers[1..][k - 1];
      }
    }
  }

  /** The ids in the first `k` layers. */
  function Placed(nodes: seq<Node>, k: nat): set<string>
    requires k <= |Layers(nodes, {})|
  {
    Union(Layers(nodes, {})[..k])
  }

  lemma InPlaced(nodes: seq<Node>, k: nat, i: string)
    requires k <= |Layers(nodes, {})|
    ensures i in Placed(nodes, k) <==> exists j :: 0 <= j < k && i in Layers(nodes, {})[j]
  {
    var ls := Layers(nodes, {});
    InUnion(ls[..k], i);
    if i in Placed(nodes, k) {
      var j :| 0 <= j < |ls[..k]| && i in ls[..k][j];
      assert i in ls[j];
    }
    if j :| 0 <= j < k && i in ls[j] {
      assert i in ls[..k][j];
    }
  }

  /** Each layer is exactly what is free when the layers before it are placed; after the last one,
      nothing is. */
  lemma LayerIs(nodes: seq<Node>, k: nat)
    requires k <= |Layers(nodes, {})|
    ensures Select(nodes, Placed(nodes, k)) == if k < |Layers(nodes, {})| then Layers(nodes, {})[k] else []
  {
    LayerAt(nodes, {}, k);
    assert {} + Placed(nodes, k) == Placed(nodes, k);
  }

  /** In a layer: the item is declared, not in an earlier layer, and all its dependencies are. */
  lemma LayerMember(nodes: seq<Node>, k: nat, i: string)
    requires k < |Layers(nodes, {})| && i in Layers(nodes, {})[k]
    ensures i in Ids(nodes) && i !in Placed(nodes, k)
    ensures Checked(nodes) ==> forall d :: DependsOn(nodes, i, d) ==> d in Placed(nodes, k)
  {
    LayerIs(nodes, k);
    var n :| n in nodes && n.id == i && Free(n, Placed(nodes, k));
    if Checked(nodes) {
      forall d | DependsOn(nodes, i, d) ensures d in Placed(nodes, k) {
        var m :| m in nodes && m.id == i && d in m.deps;
        SameNode(nodes, n, m);
      }
    }
  }

  lemma SameNode(nodes: seq<Node>, n: Node, m: Node)
    requires Distinct(Order(nodes)) && n in nodes && m in nodes && n.id == m.id
    ensures n == m
  {
    var i :| 0 <= i < |nodes| && nodes[i] == n;
    var j :| 0 <= j < |nodes| && nodes[j] == m;
    assert Order(nodes)[i] == Order(nodes)[j];
  }

  /** No id is in two layers, and every dependency is in a strictly earlier layer. */
  lemma LayersOrdered(nodes: seq<Node>, j: nat, k: nat, i: string, d: string)
    requires Checked(nodes) && k < |Layers(nodes, {})| && i in Layers(nodes, {})[k]
    ensures j < |Layers(nodes, {})| && i in Layers(nodes, {})[j] ==> j == k
    ensures DependsOn(nodes, i, d) ==> exists e :: 0 <= e < k && d in Layers(nodes, {})[e]
  {
    LayerMember(nodes, k, i);
    if j < |Layers(nodes, {})| && i in Layers(nodes, {})[j] {
      LayerMember(nodes, j, i);
      InPlaced(nodes, k, i);
      InPlaced(nodes, j, i);
    }
    if DependsOn(nodes, i, d) {
      InPlaced(nodes, k, d);
    }
  }

  /** An item of layer `k` ends a chain of `k + 1` items. */
  lemma {:induction false} ChainTo(nodes: seq<Node>, k: nat, i: string) returns (p: seq<string>)
    requires Checked(nodes) && k < |Layers(nodes, {})| && i in Layers(nodes, {})[k]
    ensures IsChain(nodes, p) && |p| == k + 1 && p[k] == i
    decreases k
  {
    hide Layers, Checked, Ids, DependsOn;
    LayerMember(nodes, k, i);
    if k == 0 {
      p := [i];
    } else {
      var d := Blocker(nodes, k, i);
      var q := ChainTo(nodes, k - 1, d);
      p := q + [i];
    }
  }

  /** An item of layer `k > 0` has a dependency in layer `k - 1`: it could not go earlier. */
  lemma Blocker(nodes: seq<Node>, k: nat, i: string) returns (d: string)
    requires Checked(nodes) && 0 < k < |Layers(nodes, {})| && i in Layers(nodes, {})[k]
    ensures DependsOn(nodes, i, d) && d in Layers(nodes, {})[k - 1]
  {
    var ls := Layers(nodes, {});
    hide Layers, Checked, Placed;
    assert i in Ids(nodes) && i !in ls[k - 1] && i !in Placed(nodes, k - 1) by { NotEarlier(nodes, k, i); }
    LayerIs(nodes, k - 1);
    var n :| n in nodes && n.id == i;
    assert !Free(n, Placed(nodes, k - 1));
    d :| d in n.deps && d !in Placed(nodes, k - 1);
    LayerMember(nodes, k, i);
    assert DependsOn(nodes, i, d);
    LastPlaced(nodes, k, d);
  }

  lemma NotEarlier(nodes: seq<Node>, k: nat, i: string)
    requires 0 < k < |Layers(nodes, {})| && i in Layers(nodes, {})[k]
    ensures i in Ids(nodes) && i !in Layers(nodes, {})[k - 1] && i !in Placed(nodes, k - 1)
  {
    hide Layers, Placed;
    LayerMember(nodes, k, i);
    InPlaced(nodes, k, i);
    InPlaced(nodes, k - 1, i);
  }

  lemma LastPlaced(nodes: seq<Node>, k: nat, d: string)
    requires 0 < k <= |Layers(nodes, {})| && d in Placed(nodes, k) && d !in Placed(nodes, k - 1)
    ensures d in Layers(nodes, {})[k - 1]
  {
    hide Layers, Placed;
    InPlaced(nodes, k, d);
    InPlaced(nodes, k - 1, d);
  }

  /** No chain that ends at an item of layer `k` has more than `k + 1` items. */
  lemma {:induction false} ChainBound(nodes: seq<Node>, k: nat, p: seq<string>)
    requires Checked(nodes) && IsChain(nodes, p) && k < |Layers(nodes, {})|
    requires p[|p| - 1] in Layers(nodes, {})[k]
    ensures |p| <= k + 1
    decreases k
  {
    if |p| > 1 {
      hide Layers, Checked;
      var e := ChainStep(nodes, k, p);
      ChainBound(nodes, e, p[..|p| - 1]);
    }
  }

  /** The item before the last of a chain stands in an earlier layer. */
  lemma ChainStep(nodes: seq<Node>, k: nat, p: seq<string>) returns (e: nat)
    requires Checked(nodes) && IsChain(nodes, p) && |p| > 1 && k < |Layers(nodes, {})|
    requires p[|p| - 1] in Layers(nodes, {})[k]
    ensures e < k && p[|p| - 2] in Layers(nodes, {})[e] && IsChain(nodes, p[..|p| - 1])
  {
    hide Layers, Checked, Ids;
    var (i, d) := (p[|p| - 1], p[|p| - 2]);
    assert DependsOn(nodes, i, d) by {
      assert DependsOn(nodes, p[|p| - 2 + 1], p[|p| - 2]);
    }
    hide DependsOn;
    LayersOrdered(nodes, k, k, i, d);
    e :| 0 <= e < k && d in Layers(nodes, {})[e];
  }

  /** The wave of an item is the length of its longest dependency chain. */
  lemma WaveIsLongestChain(nodes: seq<Node>, k: nat, i: string)
    requires Checked(nodes) && k < |Layers(nodes, {})| && i in Layers(nodes, {})[k]
    ensures exists p :: IsChain(nodes, p) && p[|p| - 1] == i && |p| == k + 1
    ensures forall p :: IsChain(nodes, p) && p[|p| - 1] == i ==> |p| <= k + 1
  {
    var p := ChainTo(nodes, k, i);
    forall p | IsChain(nodes, p) && p[|p| - 1] == i ensures |p| <= k + 1 {
      ChainBound(nodes, k, p);
    }
  }

  /** Any assignment of waves in which every dependency comes strictly earlier. */
  ghost predicate IsLayering(nodes: seq<Node>, wave: map<string, nat>) {
    && (forall i :: i in Ids(nodes) ==> i in wave)
    && forall i, d :: i in Ids(nodes) && d in Ids(nodes) && DependsOn(nodes, i, d) ==> wave[d] < wave[i]
  }

  lemma {:induction false} ChainClimbs(nodes: seq<Node>, wave: map<string, nat>, p: seq<string>)
    requires IsLayering(nodes, wave) && IsChain(nodes, p)
    ensures wave[p[0]] + |p| - 1 <= wave[p[|p| - 1]]
    decreases |p|
  {
    if |p| > 1 {
      ChainClimbs(nodes, wave, p[..|p| - 1]);
      assert DependsOn(nodes, p[|p| - 2 + 1], p[|p| - 2]);
    }
  }

  /** No valid layering puts any item earlier than the plan does. */
  lemma NoEarlierWave(nodes: seq<Node>, wave: map<string, nat>, k: nat, i: string)
    requires Checked(nodes) && IsLayering(nodes, wave) && k < |Layers(nodes, {})| && i in Layers(nodes, {})[k]
    ensures i in wave && k <= wave[i]
  {
    var p := ChainTo(nodes, k, i);
    ChainClimbs(nodes, wave, p);
  }

  /** No layer is empty. */
  lemma {:induction false} LayerNotEmpty(nodes: seq<Node>, placed: set<string>, k: nat)
    requires k < |Layers(nodes, placed)|
    ensures Layers(nodes, placed)[k] != []
    decreases k
  {
    hide Select;
    var layer := Select(nodes, placed);
    assert layer != [];
    if k > 0 {
      assert Layers(nodes, placed) == [layer] + Layers(nodes, placed + Elements(layer));
      LayerNotEmpty(nodes, placed + Elements(layer), k - 1);
    }
  }

  /** All items' wave numbers lie below `m`: the layering uses at most `m` waves. */
  predicate WavesBelow(nodes: seq<Node>, wave: map<string, nat>, m: nat) {
    forall i :: i in Ids(nodes) && i in wave ==> wave[i] < m
  }

  /** No valid layering uses fewer waves than there are layers. */
  lemma NoFewerWaves(nodes: seq<Node>, wave: map<string, nat>, m: nat)
    requires Checked(nodes) && IsLayering(nodes, wave) && WavesBelow(nodes, wave, m)
    ensures |Layers(nodes, {})| <= m
  {
    hide Layers, Checked, IsLayering;
    var n := |Layers(nodes, {})|;
    if n > 0 {
      LayerNotEmpty(nodes, {}, n - 1);
      var last := Layers(nodes, {})[n - 1];
      assert last[0] in last;
      LayerMember(nodes, n - 1, last[0]);
      NoEarlierWave(nodes, wave, n - 1, last[0]);
    }
  }

  // ---------------------------------------------------------------- cycles

  /** An unplaced item waits for an unplaced one. */
  lemma StuckDep(nodes: seq<Node>, i: string) returns (d: string)
    requires Checked(nodes) && i in Ids(nodes) - Union(Layers(nodes, {}))
    ensures d in Ids(nodes) - Union(Layers(nodes, {})) && DependsOn(nodes, i, d)
  {
    var ls := Layers(nodes, {});
    LayerIs(nodes, |ls|);
    assert ls[..|ls|] == ls;
    var n :| n in nodes && n.id == i;
    assert !Free(n, Union(ls)) by {
      assert i !in Select(nodes, Union(ls));
    }
    d :| d in n.deps && d !in Union(ls);
    assert GoodEdges(n, Ids(nodes));
  }

  /** From an unplaced item, a chain of unplaced items of any length. */
  lemma {:induction false} StuckChain(nodes: seq<Node>, i: string, m: nat) returns (p: seq<string>)
    requires Checked(nodes) && i in Ids(nodes) - Union(Layers(nodes, {}))
    ensures IsChain(nodes, p) && |p| == m + 1 && p[m] == i
    ensures forall k :: 0 <= k <= m ==> p[k] in Ids(nodes) - Union(Layers(nodes, {}))
    decreases m
  {
    hide Layers, Checked, Ids, Union, DependsOn;
    if m == 0 {
      p := [i];
    } else {
      var d := StuckDep(nodes, i);
      var q := StuckChain(nodes, d, m - 1);
      p := q + [i];
    }
  }

  lemma {:induction false} Pigeonhole(p: seq<string>, u: set<string>)
    requires (forall k :: 0 <= k < |p| ==> p[k] in u) && Distinct(p)
    ensures |p| <= |u|
    decreases |p|
  {
    if p != [] {
      var q := p[..|p| - 1];
      Pigeonhole(q, u - {p[|p| - 1]});
    }
  }

  lemma {:induction false} SubChain(nodes: seq<Node>, p: seq<string>, a: nat, b: nat)
    requires IsChain(nodes, p) && a < b <= |p|
    ensures IsChain(nodes, p[a..b])
  {
    var q := p[a..b];
    forall k | 0 <= k < |q| - 1 ensures DependsOn(nodes, q[k + 1], q[k]) {
      assert DependsOn(nodes, p[a + k + 1], p[a + k]);
    }
  }

  /** The layering leaves something out exactly when the dependency graph has a cycle. */
  lemma LeftOutIffCycle(nodes: seq<Node>)
    requires Checked(nodes)
    ensures Union(Layers(nodes, {})) != Ids(nodes) <==> exists p :: IsCycle(nodes, p)
  {
    hide Layers, Checked, Ids, Union, IsChain;
    PlacedAreIds(nodes);
    if Union(Layers(nodes, {})) != Ids(nodes) {
      var i := Missing(Union(Layers(nodes, {})), Ids(nodes));
      StuckCycle(nodes, i);
    }
    if p :| IsCycle(nodes, p) {
      CycleNotPlaced(nodes, p);
    }
  }

  lemma Missing<T>(a: set<T>, b: set<T>) returns (x: T)
    requires a <= b && a != b
    ensures x in b - a
  {
    x :| x in b && x !in a;
  }

  lemma PlacedAreIds(nodes: seq<Node>)
    ensures Union(Layers(nodes, {})) <= Ids(nodes)
  {
    hide Layers, Ids;
    var ls := Layers(nodes, {});
    forall i | i in Union(ls) ensures i in Ids(nodes) {
      InUnion(ls, i);
      var k :| 0 <= k < |ls| && i in ls[k];
      LayerMember(nodes, k, i);
    }
  }

  lemma StuckCycle(nodes: seq<Node>, i: string)
    requires Checked(nodes) && i in Ids(nodes) - Union(Layers(nodes, {}))
    ensures exists p :: IsCycle(nodes, p)
  {
    hide Layers, Checked, Ids, Union;
    var p := StuckChain(nodes, i, |Ids(nodes)|);
    if Distinct(p) {
      Pigeonhole(p, Ids(nodes));
    } else {
      var a, b :| 0 <= a < b < |p| && p[a] == p[b];
      hide IsChain;
      SubChain(nodes, p, a, b + 1);
      assert IsCycle(nodes, p[a..b + 1]);
    }
  }

  lemma {:induction false} ChainRises(nodes: seq<Node>, p: seq<string>, k: nat) returns (e: nat)
    requires Checked(nodes) && IsChain(nodes, p) && k < |Layers(nodes, {})| && p[|p| - 1] in Layers(nodes, {})[k]
    ensures e <= k && p[0] in Layers(nodes, {})[e] && (|p| > 1 ==> e < k)
    decreases |p|
  {
    hide Layers, Checked, DependsOn, Ids;
    if |p| == 1 {
      e := k;
    } else {
      e := ChainStep(nodes, k, p);
      e := ChainRises(nodes, p[..|p| - 1], e);
    }
  }

  lemma CycleNotPlaced(nodes: seq<Node>, p: seq<string>)
    requires Checked(nodes) && IsCycle(nodes, p)
    ensures p[0] in Ids(nodes) && p[0] !in Union(Layers(nodes, {}))
  {
    hide Layers, Checked, DependsOn, Union;
    var ls := Layers(nodes, {});
    InUnion(ls, p[0]);
    if k :| 0 <= k < |ls| && p[0] in ls[k] {
      var e := ChainRises(nodes, p, k);
      LayersOrdered(nodes, e, k, p[0], p[0]);
    }
  }

  // ---------------------------------------------------------------- the plan

  lemma {:induction false} GroupedAt(layers: seq<seq<string>>, prefix: string, k: nat)
    ensures |Grouped(layers, prefix, k)| == |layers|
    ensures forall j :: 0 <= j < |layers| ==>
      Grouped(layers, prefix, k)[j] == Wave(prefix + NatText(k + j), layers[j])
  {
    if layers != [] {
      hide NatText;
      var (all, tail) := (Grouped(layers, prefix, k), Grouped(layers[1..], prefix, k + 1));
      GroupedAt(layers[1..], prefix, k + 1);
      assert all[1..] == tail;
      forall j | 0 <= j < |layers| ensures all[j] == Wave(prefix + NatText(k + j), layers[j]) {
        if j > 0 {
          assert all[j] == tail[j - 1] && layers[1..][j - 1] == layers[j] && k + 1 + (j - 1) == k + j;
        }
      }
    }
  }

  /** A plan exists exactly for the graphs with unique ids, no self edge, no dangling edge and no
      cycle. */
  lemma PlanExactlyForAcyclic(nodes: seq<Node>, prefix: string)
    ensures PlanOfNodes(nodes, prefix).Ok? <==> Checked(nodes) && !(exists p :: IsCycle(nodes, p))
    ensures Checked(nodes) ==> (PlanOfNodes(nodes, prefix).Err? <==> exists p :: IsCycle(nodes, p))
    ensures Checked(nodes) && PlanOfNodes(nodes, prefix).Err? ==> PlanOfNodes(nodes, prefix).error.DependencyCycle?
  {
    hide Checked, Layers, IsCycle;
    ChecksExact(nodes);
    if Checked(nodes) {
      LeftOutIffCycle(nodes);
    }
  }

  /** The position of an id in a plan: its wave, counted from zero. */
  ghost predicate InWave(plan: seq<Wave>, k: nat, i: string) {
    k < |plan| && i in plan[k].ids
  }

  /** A plan places every item in exactly one wave, and each wave is a layer. */
  lemma PlanIsLayers(nodes: seq<Node>, prefix: string, k: nat, i: string)
    requires PlanOfNodes(nodes, prefix).Ok?
    ensures Checked(nodes)
    ensures var plan := PlanOfNodes(nodes, prefix).value;
      && |plan| == |Layers(nodes, {})|
      && (InWave(plan, k, i) <==> k < |plan| && i in Layers(nodes, {})[k])
      && (k < |plan| ==> plan[k].group == prefix + NatText(k + 1))
  {
    hide Checked, Layers;
    ChecksExact(nodes);
    GroupedAt(Layers(nodes, {}), prefix, 1);
  }

  /** The whole promise for one item: it has exactly one wave; its dependencies have strictly earlier
      ones; the wave number is the length of its longest dependency chain; no valid layering puts it
      earlier, and none uses fewer waves. */
  lemma PlanLaws(nodes: seq<Node>, prefix: string, i: string)
    requires PlanOfNodes(nodes, prefix).Ok? && i in Ids(nodes)
    ensures forall wave, m: nat :: IsLayering(nodes, wave) && WavesBelow(nodes, wave, m)
                                   ==> |PlanOfNodes(nodes, prefix).value| <= m
    ensures var plan := PlanOfNodes(nodes, prefix).value;
      exists k: nat :: InWave(plan, k, i)
        && (forall j: nat :: InWave(plan, j, i) ==> j == k)
        && (forall d :: DependsOn(nodes, i, d) ==> exists e: nat :: e < k && InWave(plan, e, d))
        && (exists p :: IsChain(nodes, p) && p[|p| - 1] == i && |p| == k + 1)
        && (forall p :: IsChain(nodes, p) && p[|p| - 1] == i ==> |p| <= k + 1)
        && (forall wave :: IsLayering(nodes, wave) ==> i in wave && k <= wave[i])
  {
    hide Checked, Layers, DependsOn, IsChain, IsLayering, PlanOfNodes, WavesBelow;
    var plan := PlanOfNodes(nodes, prefix).value;
    PlanIsLayers(nodes, prefix, 0, i);
    forall wave, m: nat | IsLayering(nodes, wave) && WavesBelow(nodes, wave, m) ensures |plan| <= m {
      NoFewerWaves(nodes, wave, m);
    }
    var k := WaveOf(nodes, prefix, i);
    forall j: nat | InWave(plan, j, i) ensures j == k {
      PlanIsLayers(nodes, prefix, j, i);
      LayersOrdered(nodes, j, k, i, i);
    }
    forall d | DependsOn(nodes, i, d) ensures exists e: nat :: e < k && InWave(plan, e, d) {
      LayersOrdered(nodes, k, k, i, d);
      var e :| 0 <= e < k && d in Layers(nodes, {})[e];
      PlanIsLayers(nodes, prefix, e, d);
    }
    WaveIsLongestChain(nodes, k, i);
    forall wave | IsLayering(nodes, wave) ensures i in wave && k <= wave[i] {
      NoEarlierWave(nodes, wave, k, i);
    }
  }

  lemma {:induction false} SelectDistinct(nodes: seq<Node>, placed: set<string>)
    requires Distinct(Order(nodes))
    ensures Distinct(Select(nodes, placed))
  {
    if nodes != [] {
      var rest := Select(nodes[1..], placed);
      assert Order(nodes)[1..] == Order(nodes[1..]);
      SelectDistinct(nodes[1..], placed);
      forall j | 0 <= j < |rest| ensures rest[j] != nodes[0].id {
        assert rest[j] in rest;
        var n :| n in nodes[1..] && n.id == rest[j];
        var m :| 0 <= m < |nodes[1..]| && nodes[1..][m] == n;
        assert Order(nodes)[m + 1] == n.id && Order(nodes)[0] == nodes[0].id;
      }
    }
  }

  /** No wave lists an item twice. */
  lemma WaveDistinct(nodes: seq<Node>, prefix: string, k: nat)
    requires PlanOfNodes(nodes, prefix).Ok? && k < |PlanOfNodes(nodes, prefix).value|
    ensures Distinct(PlanOfNodes(nodes, prefix).value[k].ids)
  {
    ChecksExact(nodes);
    hide Layers, Select;
    GroupedAt(Layers(nodes, {}), prefix, 1);
    LayerIs(nodes, k);
    SelectDistinct(nodes, Placed(nodes, k));
  }

  lemma WaveOf(nodes: seq<Node>, prefix: string, i: string) returns (k: nat)
    requires PlanOfNodes(nodes, prefix).Ok? && i in Ids(nodes)
    ensures Checked(nodes) && k < |Layers(nodes, {})| && i in Layers(nodes, {})[k]
    ensures InWave(PlanOfNodes(nodes, prefix).value, k, i)
  {
    hide Checked, Layers;
    InUnion(Layers(nodes, {}), i);
    k :| 0 <= k < |Layers(nodes, {})| && i in Layers(nodes, {})[k];
    PlanIsLayers(nodes, prefix, k, i);
  }

  // ---------------------------------------------------------------- spawn order

  datatype SpawnDescriptor = SpawnDescriptor(id: string, group: string)

  function Spawns(ids: seq<string>, group: string): (r: seq<SpawnDescriptor>)
    ensures |r| == |ids|
    ensures forall i :: 0 <= i < |ids| ==> r[i] == SpawnDescriptor(ids[i], group)
  {
    seq(|ids|, i requires 0 <= i < |ids| => SpawnDescriptor(ids[i], group))
  }

  function SpawnDescriptors(plan: seq<Wave>): seq<SpawnDescriptor> {
    if plan == [] then [] else Spawns(plan[0].ids, plan[0].group) + SpawnDescriptors(plan[1..])
  }

  /** Every place in the spawn sequence belongs to a wave, in wave order. */
  lemma {:induction false} SpawnAt(plan: seq<Wave>, x: nat) returns (k: nat)
    requires x < |SpawnDescriptors(plan)|
    ensures InWave(plan, k, SpawnDescriptors(plan)[x].id) && SpawnDescriptors(plan)[x].group == plan[k].group
    ensures forall e, i :: 0 <= e < k && i in plan[e].ids ==>
      exists y :: 0 <= y < x && SpawnDescriptors(plan)[y].id == i
  {
    var (head, tail) := (Spawns(plan[0].ids, plan[0].group), SpawnDescriptors(plan[1..]));
    var all := SpawnDescriptors(plan);
    assert all == head + tail;
    if x < |head| {
      k := 0;
    } else {
      var m := SpawnAt(plan[1..], x - |head|);
      k := m + 1;
      assert plan[k] == plan[1..][m];
      forall e, i | 0 <= e < k && i in plan[e].ids
        ensures exists y :: 0 <= y < x && all[y].id == i
      {
        if e == 0 {
          var y :| 0 <= y < |plan[0].ids| && plan[0].ids[y] == i;
          assert all[y] == head[y];
        } else {
          assert plan[e] == plan[1..][e - 1];
          var y :| 0 <= y < x - |head| && tail[y].id == i;
          assert all[y + |head|] == tail[y];
        }
      }
    }
  }

  /** The spawn sequence is a topological order: what an item depends on is spawned before it. */
  lemma SpawnOrderTopological(nodes: seq<Node>, prefix: string, x: nat, d: string)
    requires PlanOfNodes(nodes, prefix).Ok?
    requires var ds := SpawnDescriptors(PlanOfNodes(nodes, prefix).value);
      x < |ds| && DependsOn(nodes, ds[x].id, d)
    ensures var ds := SpawnDescriptors(PlanOfNodes(nodes, prefix).value);
      exists y :: 0 <= y < x && ds[y].id == d
  {
    hide PlanOfNodes, SpawnDescriptors, DependsOn, Layers, Checked;
    var plan := PlanOfNodes(nodes, prefix).value;
    var i := SpawnDescriptors(plan)[x].id;
    var k := SpawnAt(plan, x);
    PlanIsLayers(nodes, prefix, k, i);
    LayersOrdered(nodes, k, k, i, d);
    var e :| 0 <= e < k && d in Layers(nodes, {})[e];
    PlanIsLayers(nodes, prefix, e, d);
  }

  predicate NoSharedIds(plan: seq<Wave>) {
    && (forall k :: 0 <= k < |plan| ==> Distinct(plan[k].ids))
    && forall e, f :: 0 <= e < f < |plan| ==> forall i :: i in plan[e].ids ==> i !in plan[f].ids
  }

  lemma {:induction false} SpawnsDistinct(plan: seq<Wave>, x: nat, y: nat)
    requires NoSharedIds(plan) && x < y < |SpawnDescriptors(plan)|
    ensures SpawnDescriptors(plan)[x].id != SpawnDescriptors(plan)[y].id
  {
    var (head, tail) := (Spawns(plan[0].ids, plan[0].group), SpawnDescriptors(plan[1..]));
    assert SpawnDescriptors(plan) == head + tail;
    if x >= |head| {
      assert NoSharedIds(plan[1..]);
      SpawnsDistinct(plan[1..], x - |head|, y - |head|);
    } else if y >= |head| {
      var m := SpawnAt(plan[1..], y - |head|);
      assert plan[m + 1] == plan[1..][m];
    }
  }

  /** The spawn sequence names every declared item exactly once. */
  lemma SpawnsEachOnce(nodes: seq<Node>, prefix: string)
    requires PlanOfNodes(nodes, prefix).Ok?
    ensures var ds := SpawnDescriptors(PlanOfNodes(nodes, prefix).value);
      && (forall x, y :: 0 <= x < y < |ds| ==> ds[x].id != ds[y].id)
      && (forall i :: i in Ids(nodes) <==> exists x :: 0 <= x < |ds| && ds[x].id == i)
  {
    hide PlanOfNodes, SpawnDescriptors, Layers, Checked, Distinct, Ids;
    var plan := PlanOfNodes(nodes, prefix).value;
    var ds := SpawnDescriptors(plan);
    assert NoSharedIds(plan) by { PlanSharesNothing(nodes, prefix); }
    forall x, y | 0 <= x < y < |ds| ensures ds[x].id != ds[y].id {
      SpawnsDistinct(plan, x, y);
    }
    forall i ensures i in Ids(nodes) <==> exists x :: 0 <= x < |ds| && ds[x].id == i {
      if i in Ids(nodes) {
        var k := WaveOf(nodes, prefix, i);
        Spawned(plan, k, i);
      }
      if x :| 0 <= x < |ds| && ds[x].id == i {
        var k := SpawnAt(plan, x);
        PlanIsLayers(nodes, prefix, k, i);
        LayerMember(nodes, k, i);
      }
    }
  }

  lemma PlanSharesNothing(nodes: seq<Node>, prefix: string)
    requires PlanOfNodes(nodes, prefix).Ok?
    ensures NoSharedIds(PlanOfNodes(nodes, prefix).value)
  {
    hide PlanOfNodes, Layers, Checked, Distinct;
    var plan := PlanOfNodes(nodes, prefix).value;
    forall k | 0 <= k < |plan| ensures Distinct(plan[k].ids) {
      WaveDistinct(nodes, prefix, k);
    }
    forall e, f, i | 0 <= e < f < |plan| && i in plan[e].ids ensures i !in plan[f].ids {
      PlanIsLayers(nodes, prefix, e, i);
      PlanIsLayers(nodes, prefix, f, i);
      LayersOrdered(nodes, f, e, i, i);
    }
  }

  lemma {:induction false} Spawned(plan: seq<Wave>, k: nat, i: string)
    requires InWave(plan, k, i)
    ensures exists x :: 0 <= x < |SpawnDescriptors(plan)| && SpawnDescriptors(plan)[x].id == i
  {
    var (head, tail) := (Spawns(plan[0].ids, plan[0].group), SpawnDescriptors(plan[1..]));
    var all := SpawnDescriptors(plan);
    assert all == head + tail;
    if k == 0 {
      var y :| 0 <= y < |plan[0].ids| && plan[0].ids[y] == i;
      assert all[y] == head[y];
    } else {
      Spawned(plan[1..], k - 1, i);
      var y :| 0 <= y < |tail| && tail[y].id == i;
      assert all[y + |head|] == tail[y];
    }
  }
}
