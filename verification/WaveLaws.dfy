/** What a wave plan and its errors say, in terms of the items as they were declared. */
module WaveLaws {
  import opened Collections
  import opened Options
  import opened Text
  import opened Waves

  // ---------------------------------------------------------------- declaration order

  lemma {:induction false} SelectJoin(a: seq<Node>, b: seq<Node>, placed: set<string>)
    ensures Select(a + b, placed) == Select(a, placed) + Select(b, placed)
  {
    hide Free;
    if a == [] {
      assert a + b == b;
    } else {
      assert (a + b)[1..] == a[1..] + b;
      SelectJoin(a[1..], b, placed);
    }
  }

  /** A layer lists its items at ascending places of the declaration. */
  lemma {:induction false} SelectAt(nodes: seq<Node>, placed: set<string>, hit: Node -> bool)
    requires forall n :: hit(n) <==> Free(n, placed)
    ensures |PlacesOf(nodes, hit)| == |Select(nodes, placed)|
    ensures forall j :: 0 <= j < |Select(nodes, placed)| ==>
              PlacesOf(nodes, hit)[j] < |nodes| && Select(nodes, placed)[j] == nodes[PlacesOf(nodes, hit)[j]].id
  {
    hide Free;
    if nodes != [] {
      var k := |nodes| - 1;
      SelectAt(nodes[..k], placed, hit);
      SelectJoin(nodes[..k], [nodes[k]], placed);
      assert nodes[..k] + [nodes[k]] == nodes && [nodes[k]][1..] == [];
      assert Select([nodes[k]], placed) == if hit(nodes[k]) then [nodes[k].id] else [];
    }
  }

  /** The places in the declaration of the ids of one wave, in order. */
  predicate DeclaredAt(nodes: seq<Node>, ids: seq<string>, places: seq<nat>) {
    && Ascending(places) && |places| == |ids|
    && forall j :: 0 <= j < |ids| ==> places[j] < |nodes| && nodes[places[j]].id == ids[j]
  }

  lemma LayerInOrder(nodes: seq<Node>, placed: set<string>) returns (places: seq<nat>)
    ensures DeclaredAt(nodes, Select(nodes, placed), places)
  {
    var hit := (n: Node) => Free(n, placed);
    places := PlacesOf(nodes, hit);
    PlacesAre(nodes, hit);
    SelectAt(nodes, placed, hit);
    hide Free, Select, Ascending;
  }

  /** Within a wave the items stand in declaration order, and the waves are numbered from one. */
  lemma WaveInOrder(nodes: seq<Node>, prefix: string, k: nat) returns (places: seq<nat>)
    requires PlanOfNodes(nodes, prefix).Ok? && k < |PlanOfNodes(nodes, prefix).value|
    ensures DeclaredAt(nodes, PlanOfNodes(nodes, prefix).value[k].ids, places)
    ensures PlanOfNodes(nodes, prefix).value[k].group == prefix + NatText(k + 1)
  {
    PlanGroups(nodes, prefix, k);
    hide *;
    LayerIs(nodes, k);
    places := LayerInOrder(nodes, Placed(nodes, k));
  }

  lemma PlanGroups(nodes: seq<Node>, prefix: string, k: nat)
    requires PlanOfNodes(nodes, prefix).Ok? && k < |PlanOfNodes(nodes, prefix).value|
    ensures k < |Layers(nodes, {})|
    ensures PlanOfNodes(nodes, prefix).value[k] == Wave(prefix + NatText(k + 1), Layers(nodes, {})[k])
  {
    hide Layers, NatText, Ids, Union, Repeated, BadEdge;
    GroupedAt(Layers(nodes, {}), prefix, 1);
  }

  // ---------------------------------------------------------------- items and errors

  predicate HasId(item: Item) {
    item.id.Some? && exists c :: c in item.id.value && !IsSpace(c)
  }

  /** The nodes are the items, one for one; an item without an id that shows is refused. */
  lemma {:induction false} NodesAreItems(items: seq<Item>)
    ensures Normalize(items).Ok? <==> forall i :: 0 <= i < |items| ==> HasId(items[i])
    ensures Normalize(items).Err? ==> Normalize(items).error == MissingId
    ensures Normalize(items).Ok? ==>
              && |Normalize(items).value| == |items|
              && forall i :: 0 <= i < |items| ==>
                   Normalize(items).value[i] == Node(items[i].id.value, items[i].dependsOn)
  {
    hide IsSpace, Strip;
    if items != [] {
      if items[0].id.Some? {
        StripBlank(items[0].id.value);
      }
      NodesAreItems(items[1..]);
    }
  }

  /** An edge that cannot be: to the item itself or to no item. */
  predicate BadEdgeAt(nodes: seq<Node>, n: nat, k: nat) {
    && n < |nodes| && k < |nodes[n].deps|
    && (nodes[n].deps[k] == nodes[n].id || forall m :: 0 <= m < |nodes| ==> nodes[m].id != nodes[n].deps[k])
  }

  /** It is the first such edge, item by item and dependency by dependency. */
  ghost predicate FirstBadEdge(nodes: seq<Node>, n: nat, k: nat) {
    && BadEdgeAt(nodes, n, k)
    && forall m: nat, j: nat :: m < n || (m == n && j < k) ==> !BadEdgeAt(nodes, m, j)
  }

  predicate BadDepAt(id: string, deps: seq<string>, known: set<string>, k: nat) {
    k < |deps| && (deps[k] == id || deps[k] !in known)
  }

  lemma {:induction false} FirstBadDep(id: string, deps: seq<string>, known: set<string>) returns (k: nat)
    ensures BadDep(id, deps, known).Some?
            ==> && BadDepAt(id, deps, known, k) && (forall j: nat :: j < k ==> !BadDepAt(id, deps, known, j))
                && BadDep(id, deps, known) == Some(if deps[k] == id then SelfDependency(id)
                                                   else UnknownDependency(id, deps[k]))
    ensures BadDep(id, deps, known).None? ==> forall j: nat :: !BadDepAt(id, deps, known, j)
  {
    k := 0;
    if deps != [] && deps[0] != id && deps[0] in known {
      var m := FirstBadDep(id, deps[1..], known);
      k := m + 1;
      forall j: nat ensures BadDepAt(id, deps, known, j) <==> j > 0 && BadDepAt(id, deps[1..], known, j - 1) {
      }
    }
  }

  ghost predicate BadAt(nodes: seq<Node>, known: set<string>, n: nat, k: nat) {
    n < |nodes| && BadDepAt(nodes[n].id, nodes[n].deps, known, k)
  }

  ghost predicate FirstBadAt(nodes: seq<Node>, known: set<string>, n: nat, k: nat) {
    && BadAt(nodes, known, n, k)
    && forall m: nat, j: nat :: m < n || (m == n && j < k) ==> !BadAt(nodes, known, m, j)
  }

  lemma {:induction false} FirstBadIs(nodes: seq<Node>, known: set<string>) returns (n: nat, k: nat)
    requires BadEdge(nodes, known).Some?
    ensures FirstBadAt(nodes, known, n, k)
    ensures BadEdge(nodes, known).value
            == if nodes[n].deps[k] == nodes[n].id then SelfDependency(nodes[n].id)
               else UnknownDependency(nodes[n].id, nodes[n].deps[k])
  {
    hide BadDep;
    k := FirstBadDep(nodes[0].id, nodes[0].deps, known);
    if BadDep(nodes[0].id, nodes[0].deps, known).Some? {
      n := 0;
    } else {
      var m;
      m, k := FirstBadIs(nodes[1..], known);
      n := m + 1;
      forall l: nat, j: nat | l < n || (l == n && j < k) ensures !BadAt(nodes, known, l, j) {
        if l > 0 {
          assert !BadAt(nodes[1..], known, l - 1, j);
        }
      }
    }
  }

  lemma KnownIds(nodes: seq<Node>, d: string)
    ensures d !in Ids(nodes) <==> forall m :: 0 <= m < |nodes| ==> nodes[m].id != d
  {
    if m :| 0 <= m < |nodes| && nodes[m].id == d {
      assert nodes[m] in nodes;
    }
  }

  lemma BadAtIs(nodes: seq<Node>)
    ensures forall n: nat, k: nat :: BadAt(nodes, Ids(nodes), n, k) <==> BadEdgeAt(nodes, n, k)
  {
    forall d: string ensures d !in Ids(nodes) <==> forall m :: 0 <= m < |nodes| ==> nodes[m].id != d {
      KnownIds(nodes, d);
    }
    hide Ids;
  }

  /** An id stands at two places of the declaration. */
  ghost predicate Twice(nodes: seq<Node>, id: string) {
    exists i, j :: 0 <= i < j < |nodes| && nodes[i].id == id && nodes[j].id == id
  }

  lemma RepeatedIs(nodes: seq<Node>, id: string)
    ensures id in Repeated(Order(nodes)) <==> Twice(nodes, id)
  {
    var ids := Order(nodes);
    if id in Repeated(ids) {
      var i, j :| 0 <= i < |ids| && 0 <= j < |ids| && j != i && ids[j] == ids[i] == id;
      var a, b := if i < j then i else j, if i < j then j else i;
      assert nodes[a].id == id && nodes[b].id == id;
    }
    if Twice(nodes, id) {
      var i, j :| 0 <= i < j < |nodes| && nodes[i].id == id && nodes[j].id == id;
      assert ids[i] == id && ids[j] == id;
    }
  }

  /** Dependency chains of every length end at the item. */
  ghost predicate Endless(nodes: seq<Node>, id: string) {
    forall m: nat :: EndsChain(nodes, id, m)
  }

  ghost predicate EndsChain(nodes: seq<Node>, id: string, m: nat) {
    exists p :: IsChain(nodes, p) && |p| == m + 1 && p[m] == id
  }

  lemma StuckIs(nodes: seq<Node>, id: string)
    requires Checked(nodes)
    ensures id in Ids(nodes) - Union(Layers(nodes, {})) <==> id in Ids(nodes) && Endless(nodes, id)
  {
    hide Checked, Layers, Ids, Union, IsChain;
    var layers := Layers(nodes, {});
    if id in Ids(nodes) - Union(layers) {
      forall m: nat ensures EndsChain(nodes, id, m) {
        var p := StuckChain(nodes, id, m);
      }
    }
    if id in Union(layers) {
      InUnion(layers, id);
      var k: nat :| k < |layers| && id in layers[k];
      NotEndless(nodes, k, id);
    }
  }

  lemma NotEndless(nodes: seq<Node>, k: nat, id: string)
    requires Checked(nodes) && k < |Layers(nodes, {})| && id in Layers(nodes, {})[k]
    ensures !EndsChain(nodes, id, k + 1) && !Endless(nodes, id)
  {
    hide Checked, Layers, IsChain;
    WaveIsLongestChain(nodes, k, id);
  }

  /** Why there is no plan: an item without an id; ids declared twice, all of them; the first edge to the item
      itself or to no item; or else the items that wait for a cycle, all of them. */
  ghost predicate Reason(nodes: seq<Node>, error: WaveError) {
    match error
    case MissingId => false
    case DuplicateIds(ids) => ids != {} && forall id :: id in ids <==> Twice(nodes, id)
    case SelfDependency(id) =>
      && (forall x :: !Twice(nodes, x))
      && exists n: nat, k: nat ::
           FirstBadEdge(nodes, n, k) && nodes[n].id == id && nodes[n].deps[k] == id
    case UnknownDependency(id, dep) =>
      && (forall x :: !Twice(nodes, x))
      && exists n: nat, k: nat ::
           FirstBadEdge(nodes, n, k) && nodes[n].id == id && nodes[n].deps[k] == dep && dep != id
    case DependencyCycle(stuck) =>
      && (forall x :: !Twice(nodes, x)) && (forall n: nat, k: nat :: !BadEdgeAt(nodes, n, k))
      && stuck != {} && forall id :: id in stuck <==> id in Ids(nodes) && Endless(nodes, id)
  }

  lemma NoneTwice(nodes: seq<Node>)
    ensures Repeated(Order(nodes)) == {} <==> forall id :: !Twice(nodes, id)
    ensures forall id :: id in Repeated(Order(nodes)) <==> Twice(nodes, id)
  {
    hide Repeated, Twice;
    forall id: string ensures id in Repeated(Order(nodes)) <==> Twice(nodes, id) {
      RepeatedIs(nodes, id);
    }
  }

  lemma EdgeReason(nodes: seq<Node>)
    requires (forall id :: !Twice(nodes, id)) && BadEdge(nodes, Ids(nodes)).Some?
    ensures Reason(nodes, BadEdge(nodes, Ids(nodes)).value)
  {
    BadAtIs(nodes);
    var n, k := FirstBadIs(nodes, Ids(nodes));
    hide BadAt, BadEdgeAt, Twice, BadEdge, Ids;
    assert FirstBadEdge(nodes, n, k);
  }

  lemma CycleReason(nodes: seq<Node>)
    requires (forall id :: !Twice(nodes, id)) && BadEdge(nodes, Ids(nodes)).None?
    requires Checked(nodes) && Union(Layers(nodes, {})) != Ids(nodes)
    ensures Reason(nodes, DependencyCycle(Ids(nodes) - Union(Layers(nodes, {}))))
  {
    NoBadAt(nodes, Ids(nodes));
    BadAtIs(nodes);
    PlacedAreIds(nodes);
    hide BadAt, BadEdgeAt, Twice, BadEdge, Checked, Endless, Ids, Union, Layers;
    forall id: string
      ensures id in Ids(nodes) - Union(Layers(nodes, {})) <==> id in Ids(nodes) && Endless(nodes, id)
    {
      StuckIs(nodes, id);
    }
    var id := Missing(Union(Layers(nodes, {})), Ids(nodes));
  }

  lemma NodeErrors(nodes: seq<Node>, prefix: string)
    requires PlanOfNodes(nodes, prefix).Err?
    ensures Reason(nodes, PlanOfNodes(nodes, prefix).error)
  {
    NoneTwice(nodes);
    ChecksExact(nodes);
    if Repeated(Order(nodes)) == {} {
      if BadEdge(nodes, Ids(nodes)).Some? {
        EdgeReason(nodes);
      } else if Union(Layers(nodes, {})) != Ids(nodes) {
        CycleReason(nodes);
      }
    }
    hide Repeated, BadEdge, Layers, Ids, Union, Twice, Checked, FirstBadEdge, BadEdgeAt, Endless, Grouped;
  }

  lemma {:induction false} NoBadAt(nodes: seq<Node>, known: set<string>)
    requires BadEdge(nodes, known).None?
    ensures forall n: nat, k: nat :: !BadAt(nodes, known, n, k)
  {
    if nodes != [] {
      var k := FirstBadDep(nodes[0].id, nodes[0].deps, known);
      NoBadAt(nodes[1..], known);
      forall n: nat, j: nat ensures !BadAt(nodes, known, n, j) {
        if n > 0 {
          assert !BadAt(nodes[1..], known, n - 1, j);
        }
      }
    }
  }

  /** Every refusal of the planner is for a true reason, and the first one that applies. */
  lemma ErrorsExactly(items: seq<Item>, prefix: string)
    requires PlanOf(items, prefix).Err?
    ensures PlanOf(items, prefix).error == MissingId <==> exists i :: 0 <= i < |items| && !HasId(items[i])
    ensures PlanOf(items, prefix).error != MissingId
            ==> Normalize(items).Ok? && Reason(Normalize(items).value, PlanOf(items, prefix).error)
  {
    NodesAreItems(items);
    hide Normalize, HasId, PlanOfNodes, Reason;
    if Normalize(items).Ok? {
      NodeErrors(Normalize(items).value, prefix);
      NotMissing(Normalize(items).value, PlanOf(items, prefix).error);
    }
  }

  lemma NotMissing(nodes: seq<Node>, error: WaveError)
    requires Reason(nodes, error)
    ensures error != MissingId
  {
  }

  // ---------------------------------------------------------------- spawn order

  /** The spawn sequence takes wave after wave, each item under its wave's group. */
  lemma {:induction false} SpawnsJoin(a: seq<Wave>, w: Wave, b: seq<Wave>)
    ensures SpawnDescriptors(a + [w] + b) == SpawnDescriptors(a) + Spawns(w.ids, w.group) + SpawnDescriptors(b)
  {
    var all := a + [w] + b;
    if a == [] {
      assert all == [w] + b && all[1..] == b;
      assert SpawnDescriptors(a) + Spawns(w.ids, w.group) == Spawns(w.ids, w.group);
    } else {
      assert all[0] == a[0] && all[1..] == a[1..] + [w] + b;
      SpawnsJoin(a[1..], w, b);
      hide Spawns;
      Regroup(Spawns(a[0].ids, a[0].group), SpawnDescriptors(a[1..]), Spawns(w.ids, w.group), SpawnDescriptors(b));
    }
  }

  lemma Regroup<T>(a: seq<T>, b: seq<T>, c: seq<T>, d: seq<T>)
    ensures a + (b + c + d) == a + b + c + d
  {
  }
}
