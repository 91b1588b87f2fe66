/** Finding a compiled company's configs and delegation edges: two breadth-first walks over the parsed
    files that must agree with each other. */
module CompanyWalk {
  import opened Options
  import opened ConfigValue
  import opened BreadthFirst
  import opened Collections

  /** The parsed files, by resolved path; a path without one has no file. */
  type Files = map<string, Value>

  /** From a config's path and the path text in it to the resolved path of the delegate's config. */
  type Resolver = (string, string) -> string

  datatype ProbeError = ProbeError

  datatype Location = Location(path: string, org: string)

  datatype AgentRef = AgentRef(name: string, config: string, timeout: Value)

  datatype Edge = Edge(parent: string, index: nat, child: string, childOrg: string)

  // ---------------------------------------------------------------- one config's delegates

  /** One entry of `tools.agents`: a mapping with a name and a config path. */
  function RefOf(raw: Value): Option<AgentRef> {
    if !raw.Map? then None
    else
      var name, config := Get(raw.entries, "name"), Get(raw.entries, "config");
      if !name.Text? || !config.Text? then None
      else Some(AgentRef(name.text, config.text,
                         if "timeout_s" in raw.entries then raw.entries["timeout_s"] else Float(120.0)))
  }

  function Refs(agents: seq<Value>): Option<seq<AgentRef>> {
    if agents == [] then Some([])
    else
      var first, rest := RefOf(agents[0]), Refs(agents[1..]);
      if first.None? || rest.None? then None else Some([first.value] + rest.value)
  }

  /** The raw `tools.agents` list; nothing declared is an empty list. */
  function AgentList(data: Value): Option<seq<Value>> {
    if !data.Map? then None
    else
      var tools := Get(data.entries, "tools");
      if tools.Null? then Some([])
      else if !tools.Map? then None
      else
        var agents := if "agents" in tools.entries then tools.entries["agents"] else List([]);
        if agents.List? then Some(agents.items) else None
  }

  predicate Timed(refs: seq<AgentRef>) {
    forall i :: 0 <= i < |refs| ==> Number(refs[i].timeout).Some?
  }

  /** The delegates a walk can follow; discovery also insists on numeric timeouts. */
  function Delegates(files: Files, path: string, timed: bool): Option<seq<AgentRef>> {
    if path !in files then None
    else
      var agents := AgentList(files[path]);
      if agents.None? then None
      else
        var refs := Refs(agents.value);
        if refs.None? || (timed && !Timed(refs.value)) then None else refs
  }

  function Children(resolve: Resolver, at: Location, refs: seq<AgentRef>): (r: seq<Location>)
    ensures |r| == |refs|
    ensures forall i :: 0 <= i < |r| ==>
              r[i] == Location(resolve(at.path, refs[i].config), at.org + "/" + refs[i].name)
  {
    seq(|refs|, i requires 0 <= i < |refs| =>
      Location(resolve(at.path, refs[i].config), at.org + "/" + refs[i].name))
  }

  function ChildPaths(resolve: Resolver, path: string, refs: seq<AgentRef>): set<string> {
    set r | r in refs :: resolve(path, r.config)
  }

  lemma {:induction false} RefsAt(agents: seq<Value>, i: nat)
    requires Refs(agents).Some? && i < |agents|
    ensures |Refs(agents).value| == |agents|
    ensures RefOf(agents[i]) == Some(Refs(agents).value[i])
  {
    hide RefOf;
    RefsLength(agents);
    if i > 0 {
      RefsAt(agents[1..], i - 1);
    }
  }

  lemma {:induction false} RefsLength(agents: seq<Value>)
    requires Refs(agents).Some?
    ensures |Refs(agents).value| == |agents|
  {
    hide RefOf;
    if agents != [] {
      RefsLength(agents[1..]);
    }
  }

  lemma {:induction false} RefsAll(agents: seq<Value>)
    requires forall i :: 0 <= i < |agents| ==> RefOf(agents[i]).Some?
    ensures Refs(agents).Some?
  {
    hide RefOf;
    if agents != [] {
      RefsAll(agents[1..]);
    }
  }

  // ---------------------------------------------------------------- the walk

  function Successors(files: Files, resolve: Resolver, timed: bool, at: Location): seq<Location> {
    match Delegates(files, at.path, timed)
    case None => []
    case Some(refs) => Children(resolve, at, refs)
  }

  /** The configs one config delegates to. */
  function Next(files: Files, resolve: Resolver, timed: bool, path: string): set<string> {
    match Delegates(files, path, timed)
    case None => {}
    case Some(refs) => ChildPaths(resolve, path, refs)
  }

  function SuccOf(files: Files, resolve: Resolver, timed: bool): Location -> seq<Location> {
    (at: Location) => Successors(files, resolve, timed, at)
  }

  function NextOf(files: Files, resolve: Resolver, timed: bool): string -> set<string> {
    (path: string) => Next(files, resolve, timed, path)
  }

  function PathKey(): Location -> string {
    (at: Location) => at.path
  }

  function Universe(files: Files, resolve: Resolver, timed: bool, root: string): set<string> {
    {root} + set p, c | p in files && c in Next(files, resolve, timed, p) :: c
  }

  lemma ChildKeys(resolve: Resolver, at: Location, refs: seq<AgentRef>)
    ensures KeysOf(Children(resolve, at, refs), PathKey()) == ChildPaths(resolve, at.path, refs)
  {
    var children := Children(resolve, at, refs);
    forall c | c in ChildPaths(resolve, at.path, refs)
      ensures c in KeysOf(children, PathKey())
    {
      var r :| r in refs && c == resolve(at.path, r.config);
      var i :| 0 <= i < |refs| && refs[i] == r;
      assert children[i] in children && PathKey()(children[i]) == c;
    }
    forall c | c in KeysOf(children, PathKey())
      ensures c in ChildPaths(resolve, at.path, refs)
    {
      var l :| l in children && PathKey()(l) == c;
      var i :| 0 <= i < |children| && children[i] == l;
      assert refs[i] in refs;
    }
  }

  lemma WalkFits(files: Files, resolve: Resolver, timed: bool, root: string)
    ensures Follows(SuccOf(files, resolve, timed), PathKey(), NextOf(files, resolve, timed))
    ensures Closed(NextOf(files, resolve, timed), Universe(files, resolve, timed, root))
    ensures root in Universe(files, resolve, timed, root)
    ensures KeysOf([Location(root, "root")], PathKey()) == {root}
  {
    hide Delegates, Children, ChildPaths;
    var succ, next := SuccOf(files, resolve, timed), NextOf(files, resolve, timed);
    forall l: Location ensures KeysOf(succ(l), PathKey()) == next(l.path) {
      match Delegates(files, l.path, timed)
      case None =>
      case Some(refs) => ChildKeys(resolve, l, refs);
    }
    forall k | k in Universe(files, resolve, timed, root)
      ensures next(k) <= Universe(files, resolve, timed, root)
    {
      NoFileNoNext(files, resolve, timed, k);
    }
  }

  lemma NoFileNoNext(files: Files, resolve: Resolver, timed: bool, path: string)
    ensures path !in files ==> Next(files, resolve, timed, path) == {}
  {
  }

  /** The locations a walk from the root config visits, in order. */
  ghost function Walk(files: Files, resolve: Resolver, timed: bool, root: string): seq<Location> {
    WalkFits(files, resolve, timed, root);
    Visit(SuccOf(files, resolve, timed), PathKey(), NextOf(files, resolve, timed),
          Universe(files, resolve, timed, root), [Location(root, "root")], {})
  }

  lemma WalkIs(files: Files, resolve: Resolver, timed: bool, root: string)
    requires Follows(SuccOf(files, resolve, timed), PathKey(), NextOf(files, resolve, timed))
    requires Closed(NextOf(files, resolve, timed), Universe(files, resolve, timed, root))
    requires KeysOf([Location(root, "root")], PathKey()) <= Universe(files, resolve, timed, root)
    ensures Walk(files, resolve, timed, root)
            == [] + Visit(SuccOf(files, resolve, timed), PathKey(), NextOf(files, resolve, timed),
                          Universe(files, resolve, timed, root), [Location(root, "root")], {})
  {
    hide Visit, Universe, Follows, Closed, SuccOf, NextOf;
  }

  predicate Readable(files: Files, path: string, timed: bool) {
    Delegates(files, path, timed).Some?
  }

  ghost predicate AllReadable(files: Files, locations: seq<Location>, timed: bool) {
    forall l :: l in locations ==> Readable(files, l.path, timed)
  }

  /** `path` is reached over delegation edges. */
  ghost predicate Reached(files: Files, resolve: Resolver, timed: bool, root: string, path: string) {
    Reaches(NextOf(files, resolve, timed), root, path)
  }

  /** The walk visits exactly the reachable configs, each once. */
  lemma WalkExact(files: Files, resolve: Resolver, timed: bool, root: string)
    ensures DistinctKeys(Walk(files, resolve, timed, root), PathKey())
    ensures forall path :: (exists l :: l in Walk(files, resolve, timed, root) && l.path == path)
                           <==> Reached(files, resolve, timed, root, path)
  {
    WalkFits(files, resolve, timed, root);
    var succ, next := SuccOf(files, resolve, timed), NextOf(files, resolve, timed);
    var all := Universe(files, resolve, timed, root);
    var walk := Walk(files, resolve, timed, root);
    VisitsOnce(succ, PathKey(), next, all, [Location(root, "root")], {});
    forall path
      ensures (exists l :: l in walk && l.path == path) <==> Reached(files, resolve, timed, root, path)
    {
      VisitsExactly(succ, PathKey(), next, all, Location(root, "root"), path);
      assert path in KeysOf(walk, PathKey()) <==> exists l :: l in walk && PathKey()(l) == path;
    }
  }

  /** Every location but the root is a delegate of a visited one, named after it. */
  lemma WalkNames(files: Files, resolve: Resolver, timed: bool, root: string, at: Location)
    requires at in Walk(files, resolve, timed, root)
    ensures at == Location(root, "root")
            || exists parent :: parent in Walk(files, resolve, timed, root)
                                && at in Successors(files, resolve, timed, parent)
  {
    WalkFits(files, resolve, timed, root);
    var succ := SuccOf(files, resolve, timed);
    VisitOrigins(succ, PathKey(), NextOf(files, resolve, timed),
                 Universe(files, resolve, timed, root), [Location(root, "root")], {});
    hide Successors;
    if at != Location(root, "root") {
      var parent :| parent in Walk(files, resolve, timed, root) && at in succ(parent);
      assert at in Successors(files, resolve, timed, parent);
    }
  }

  // ---------------------------------------------------------------- the code's walks

  lemma ChildrenCons(resolve: Resolver, at: Location, refs: seq<AgentRef>, ref: AgentRef)
    ensures Children(resolve, at, refs + [ref])
            == Children(resolve, at, refs) + [Location(resolve(at.path, ref.config), at.org + "/" + ref.name)]
  {
  }

  /** The entries before `index` were read as `done`. */
  predicate Pending(agents: seq<Value>, index: nat, done: seq<AgentRef>)
    requires index <= |agents|
  {
    match Refs(agents[index..])
    case None => Refs(agents).None?
    case Some(rest) => Refs(agents) == Some(done + rest)
  }

  lemma PendingStart(agents: seq<Value>)
    ensures Pending(agents, 0, [])
  {
    assert agents[0..] == agents;
    if Refs(agents).Some? {
      assert [] + Refs(agents).value == Refs(agents).value;
    }
  }

  lemma PendingStep(agents: seq<Value>, index: nat, done: seq<AgentRef>)
    requires index < |agents| && Pending(agents, index, done)
    ensures RefOf(agents[index]).None? ==> Refs(agents).None?
    ensures RefOf(agents[index]).Some? ==> Pending(agents, index + 1, done + [RefOf(agents[index]).value])
  {
    RefsStep(agents, index);
    var first, rest := RefOf(agents[index]), Refs(agents[index + 1..]);
    hide RefOf, Refs;
    if first.Some? && rest.Some? {
      assert done + ([first.value] + rest.value) == (done + [first.value]) + rest.value;
    }
  }

  lemma RefsStep(agents: seq<Value>, index: nat)
    requires index < |agents|
    ensures Refs(agents[index..])
            == if RefOf(agents[index]).None? || Refs(agents[index + 1..]).None? then None
               else Some([RefOf(agents[index]).value] + Refs(agents[index + 1..]).value)
  {
    hide RefOf;
    assert agents[index..][1..] == agents[index + 1..];
  }

  lemma PendingEnd(agents: seq<Value>, done: seq<AgentRef>)
    requires Pending(agents, |agents|, done)
    ensures Refs(agents) == Some(done)
  {
    assert done + [] == done;
  }

  /** Reads the entries of one list one after the other, and queues the delegates. */
  method QueueDelegates(agents: seq<Value>, resolve: Resolver, at: Location, queue: seq<Location>)
    returns (r: Option<seq<Location>>)
    ensures r == match Refs(agents)
                 case None => None
                 case Some(refs) => if Timed(refs) then Some(queue + Children(resolve, at, refs)) else None
  {
    hide Children, RefOf, Refs, Pending;
    var longer := queue;
    ghost var done: seq<AgentRef> := [];
    var index := 0;
    PendingStart(agents);
    assert Children(resolve, at, []) == [];
    while index < |agents|
      invariant 0 <= index <= |agents|
      invariant Timed(done) && longer == queue + Children(resolve, at, done)
      invariant Pending(agents, index, done)
    {
      PendingStep(agents, index, done);
      var ref := RefOf(agents[index]);
      if ref.None? {
        return None;
      }
      if Number(ref.value.timeout).None? {
        UntimedRefs(agents, index, done);
        return None;
      }
      longer := longer + [Location(resolve(at.path, ref.value.config), at.org + "/" + ref.value.name)];
      ChildrenCons(resolve, at, done, ref.value);
      done := done + [ref.value];
      index := index + 1;
    }
    PendingEnd(agents, done);
    r := Some(longer);
  }

  lemma UntimedRefs(agents: seq<Value>, index: nat, done: seq<AgentRef>)
    requires index < |agents| && RefOf(agents[index]).Some? && Number(RefOf(agents[index]).value.timeout).None?
    requires Pending(agents, index + 1, done + [RefOf(agents[index]).value])
    ensures Refs(agents).Some? ==> !Timed(Refs(agents).value)
  {
    if Refs(agents).Some? {
      assert Refs(agents).value[|done|] == RefOf(agents[index]).value;
    }
  }

  /** Follows the delegation edges from a compiled root config. */
  method Discover(files: Files, resolve: Resolver, root: string) returns (r: Result<seq<Location>, ProbeError>)
    ensures r.Ok? <==> AllReadable(files, Walk(files, resolve, true, root), true)
    ensures r.Ok? ==> r.value == Walk(files, resolve, true, root)
  {
    hide Children, ChildPaths, Visit, KeysOf, Refs, Follows, Closed, AgentList, Universe, Walk;
    var queue := [Location(root, "root")];
    var found: seq<Location> := [];
    var seen: set<string> := {};
    WalkFits(files, resolve, true, root);
    ghost var succ, next := SuccOf(files, resolve, true), NextOf(files, resolve, true);
    ghost var all, walk := Universe(files, resolve, true, root), Walk(files, resolve, true, root);
    WalkIs(files, resolve, true, root);
    while queue != []
      invariant KeysOf(queue, PathKey()) <= all
      invariant walk == found + Visit(succ, PathKey(), next, all, queue, seen)
      invariant AllReadable(files, found, true)
      invariant seen <= all
      decreases |all - seen|, |queue|
    {
      var location := queue[0];
      if location.path in seen {
        VisitSeen(succ, PathKey(), next, all, queue, seen);
        queue := queue[1..];
      } else {
        VisitNew(succ, PathKey(), next, all, queue, seen);
        Fewer(all, seen, location.path);
        ghost var rest := Visit(succ, PathKey(), next, all, queue[1..] + succ(location), seen + {location.path});
        InWalk(found, location, rest);
        var entries := if location.path in files then AgentList(files[location.path]) else None;
        if entries.None? {
          return Err(ProbeError);
        }
        var longer := QueueDelegates(entries.value, resolve, location, queue[1..]);
        if longer.None? {
          return Err(ProbeError);
        }
        assert longer.value == queue[1..] + succ(location);
        queue := longer.value;
        seen := seen + {location.path};
        found := found + [location];
      }
    }
    NothingQueued(succ, next, all, seen);
    assert found + [] == found;
    r := Ok(found);
  }

  lemma InWalk(found: seq<Location>, location: Location, rest: seq<Location>)
    ensures found + ([location] + rest) == found + [location] + rest
    ensures location in found + ([location] + rest)
  {
  }

  lemma NothingQueued(succ: Location -> seq<Location>, next: string -> set<string>, all: set<string>, seen: set<string>)
    requires Follows(succ, PathKey(), next) && Closed(next, all)
    requires KeysOf([], PathKey()) <= all
    ensures Visit(succ, PathKey(), next, all, [], seen) == []
  {
  }

  // ---------------------------------------------------------------- the edge walk

  function EdgesFrom(resolve: Resolver, at: Location, refs: seq<AgentRef>): (r: seq<Edge>)
    ensures |r| == |refs|
    ensures forall i :: 0 <= i < |r| ==>
              r[i] == Edge(at.path, i, resolve(at.path, refs[i].config), at.org + "/" + refs[i].name)
  {
    seq(|refs|, i requires 0 <= i < |refs| =>
      Edge(at.path, i, resolve(at.path, refs[i].config), at.org + "/" + refs[i].name))
  }

  /** Every edge out of one config, out of several in order. */
  function EdgesAt(files: Files, resolve: Resolver, at: Location): seq<Edge> {
    match Delegates(files, at.path, false)
    case None => []
    case Some(refs) => EdgesFrom(resolve, at, refs)
  }

  function AllEdges(files: Files, resolve: Resolver, locations: seq<Location>): seq<Edge> {
    if locations == [] then [] else EdgesAt(files, resolve, locations[0]) + AllEdges(files, resolve, locations[1..])
  }

  function Into(edges: seq<Edge>, child: string): seq<Edge> {
    if edges == [] then []
    else
      Into(edges[..|edges| - 1], child)
      + (if edges[|edges| - 1].child == child then [edges[|edges| - 1]] else [])
  }

  /** The map files every edge under its child, in order. */
  ghost predicate Grouped(m: map<string, seq<Edge>>, edges: seq<Edge>) {
    forall c: string :: (if c in m then m[c] else []) == Into(edges, c) && (c in m ==> m[c] != [])
  }

  lemma IntoOne(edges: seq<Edge>, e: Edge, child: string)
    ensures Into(edges + [e], child) == Into(edges, child) + (if e.child == child then [e] else [])
  {
    assert (edges + [e])[..|edges|] == edges;
  }

  lemma GroupedMore(m: map<string, seq<Edge>>, edges: seq<Edge>, e: Edge)
    requires Grouped(m, edges)
    ensures Grouped(m[e.child := (if e.child in m then m[e.child] else []) + [e]], edges + [e])
  {
    var m' := m[e.child := (if e.child in m then m[e.child] else []) + [e]];
    hide Into;
    forall c: string ensures (if c in m' then m'[c] else []) == Into(edges + [e], c) && (c in m' ==> m'[c] != []) {
      IntoOne(edges, e, c);
      assert (if c in m then m[c] else []) == Into(edges, c);
    }
  }

  lemma {:induction false} AllEdgesMore(files: Files, resolve: Resolver, locations: seq<Location>, at: Location)
    ensures AllEdges(files, resolve, locations + [at])
            == AllEdges(files, resolve, locations) + EdgesAt(files, resolve, at)
  {
    hide EdgesAt;
    if locations == [] {
      assert locations + [at] == [at] && [at][1..] == [];
    } else {
      assert (locations + [at])[1..] == locations[1..] + [at];
      AllEdgesMore(files, resolve, locations[1..], at);
    }
  }

  lemma EdgeOfEntry(resolve: Resolver, at: Location, refs: seq<AgentRef>, ref: AgentRef)
    ensures EdgesFrom(resolve, at, refs + [ref])
            == EdgesFrom(resolve, at, refs)
               + [Edge(at.path, |refs|, resolve(at.path, ref.config), at.org + "/" + ref.name)]
  {
  }

  /** Reads the entries of one list, files their edges and queues their targets. */
  method FileEdges(agents: seq<Value>, resolve: Resolver, at: Location, queue: seq<Location>,
                   byChild: map<string, seq<Edge>>, ghost edges: seq<Edge>)
    returns (r: Option<(seq<Location>, map<string, seq<Edge>>)>)
    requires Grouped(byChild, edges)
    ensures r.Some? <==> Refs(agents).Some?
    ensures r.Some? ==> r.value.0 == queue + Children(resolve, at, Refs(agents).value)
                        && Grouped(r.value.1, edges + EdgesFrom(resolve, at, Refs(agents).value))
  {
    hide Children, RefOf, Refs, Pending, EdgesFrom, Grouped;
    var longer, filed := queue, byChild;
    ghost var done: seq<AgentRef> := [];
    var index := 0;
    PendingStart(agents);
    assert Children(resolve, at, []) == [] && edges + EdgesFrom(resolve, at, []) == edges;
    while index < |agents|
      invariant 0 <= index <= |agents| && |done| == index
      invariant longer == queue + Children(resolve, at, done)
      invariant Grouped(filed, edges + EdgesFrom(resolve, at, done))
      invariant Pending(agents, index, done)
    {
      PendingStep(agents, index, done);
      var ref := RefOf(agents[index]);
      if ref.None? {
        return None;
      }
      var childPath, childOrg := resolve(at.path, ref.value.config), at.org + "/" + ref.value.name;
      var edge := Edge(at.path, index, childPath, childOrg);
      GroupedMore(filed, edges + EdgesFrom(resolve, at, done), edge);
      EdgeOfEntry(resolve, at, done, ref.value);
      assert edges + EdgesFrom(resolve, at, done) + [edge] == edges + EdgesFrom(resolve, at, done + [ref.value]);
      filed := filed[childPath := (if childPath in filed then filed[childPath] else []) + [edge]];
      longer := longer + [Location(childPath, childOrg)];
      ChildrenCons(resolve, at, done, ref.value);
      done := done + [ref.value];
      index := index + 1;
    }
    PendingEnd(agents, done);
    r := Some((longer, filed));
  }

  /** Re-walks the raw edges and files each under the config it leads to. */
  method DelegationEdgesByChild(files: Files, resolve: Resolver, root: string)
    returns (r: Result<map<string, seq<Edge>>, ProbeError>)
    ensures r.Ok? <==> AllReadable(files, Walk(files, resolve, false, root), false)
    ensures r.Ok? ==> Grouped(r.value, AllEdges(files, resolve, Walk(files, resolve, false, root)))
  {
    hide Children, ChildPaths, Visit, KeysOf, Refs, Follows, Closed, Grouped, EdgesFrom, AllEdges, AgentList,
           Walk, Universe;
    var queue := [Location(root, "root")];
    var seen: set<string> := {};
    var byChild: map<string, seq<Edge>> := map[];
    ghost var found: seq<Location> := [];
    WalkFits(files, resolve, false, root);
    ghost var succ, next := SuccOf(files, resolve, false), NextOf(files, resolve, false);
    ghost var all, walk := Universe(files, resolve, false, root), Walk(files, resolve, false, root);
    WalkIs(files, resolve, false, root);
    NothingFiled(files, resolve);
    while queue != []
      invariant KeysOf(queue, PathKey()) <= all
      invariant walk == found + Visit(succ, PathKey(), next, all, queue, seen)
      invariant AllReadable(files, found, false)
      invariant Grouped(byChild, AllEdges(files, resolve, found))
      decreases |all - seen|, |queue|
    {
      var parent := queue[0];
      if parent.path in seen {
        VisitSeen(succ, PathKey(), next, all, queue, seen);
        queue := queue[1..];
      } else {
        VisitNew(succ, PathKey(), next, all, queue, seen);
        Fewer(all, seen, parent.path);
        ghost var rest := Visit(succ, PathKey(), next, all, queue[1..] + succ(parent), seen + {parent.path});
        InWalk(found, parent, rest);
        var entries := if parent.path in files then AgentList(files[parent.path]) else None;
        if entries.None? {
          return Err(ProbeError);
        }
        var read := FileEdges(entries.value, resolve, parent, queue[1..], byChild, AllEdges(files, resolve, found));
        if read.None? {
          return Err(ProbeError);
        }
        assert read.value.0 == queue[1..] + succ(parent);
        AllEdgesMore(files, resolve, found, parent);
        queue, byChild := read.value.0, read.value.1;
        seen := seen + {parent.path};
        found := found + [parent];
      }
    }
    NothingQueued(succ, next, all, seen);
    assert found + [] == found;
    r := Ok(byChild);
  }

  lemma NothingFiled(files: Files, resolve: Resolver)
    ensures Grouped(map[], AllEdges(files, resolve, []))
  {
  }

  // ---------------------------------------------------------------- the two walks agree

  /** Where discovery succeeds, the edge walk visits the very same locations under the same names, and
      succeeds. */
  lemma WalksAgree(files: Files, resolve: Resolver, root: string)
    requires AllReadable(files, Walk(files, resolve, true, root), true)
    ensures Walk(files, resolve, false, root) == Walk(files, resolve, true, root)
    ensures AllReadable(files, Walk(files, resolve, false, root), false)
  {
    WalkFits(files, resolve, true, root);
    WalkFits(files, resolve, false, root);
    var walk := Walk(files, resolve, true, root);
    forall l | l in walk
      ensures SuccOf(files, resolve, true)(l) == SuccOf(files, resolve, false)(l)
      ensures Readable(files, l.path, false)
    {
      UntimedToo(files, resolve, l);
    }
    VisitAgrees(SuccOf(files, resolve, true), SuccOf(files, resolve, false), PathKey(),
                NextOf(files, resolve, true), NextOf(files, resolve, false),
                Universe(files, resolve, true, root), Universe(files, resolve, false, root),
                [Location(root, "root")], {});
  }

  lemma UntimedToo(files: Files, resolve: Resolver, l: Location)
    requires Readable(files, l.path, true)
    ensures Readable(files, l.path, false)
    ensures Successors(files, resolve, true, l) == Successors(files, resolve, false, l)
  {
    hide Refs, AgentList, Children;
  }

  /** Discovery fails exactly when a reachable config is missing or malformed. */
  lemma DiscoveryFails(files: Files, resolve: Resolver, root: string)
    ensures !AllReadable(files, Walk(files, resolve, true, root), true)
            <==> exists path :: Reached(files, resolve, true, root, path) && !Readable(files, path, true)
  {
    WalkExact(files, resolve, true, root);
    hide Reached, Readable, Walk;
    var walk := Walk(files, resolve, true, root);
    if !AllReadable(files, walk, true) {
      var l :| l in walk && !Readable(files, l.path, true);
      assert Reached(files, resolve, true, root, l.path);
    }
    if path :| Reached(files, resolve, true, root, path) && !Readable(files, path, true) {
      var l :| l in walk && l.path == path;
    }
  }

  lemma {:induction false} AllEdgesMember(files: Files, resolve: Resolver, locations: seq<Location>, e: Edge)
    ensures e in AllEdges(files, resolve, locations) <==> exists l :: l in locations && e in EdgesAt(files, resolve, l)
  {
    hide EdgesAt;
    if locations != [] {
      AllEdgesMember(files, resolve, locations[1..], e);
      assert locations == [locations[0]] + locations[1..];
    }
  }

  lemma {:induction false} IntoMember(edges: seq<Edge>, child: string, e: Edge)
    ensures e in Into(edges, child) <==> e in edges && e.child == child
  {
    if edges != [] {
      IntoMember(edges[..|edges| - 1], child, e);
      assert edges == edges[..|edges| - 1] + [edges[|edges| - 1]];
    }
  }

  /** Where discovery succeeds, the filed edges are exactly those out of the discovered configs. */
  lemma EdgesExact(files: Files, resolve: Resolver, root: string, m: map<string, seq<Edge>>, e: Edge)
    requires AllReadable(files, Walk(files, resolve, true, root), true)
    requires Grouped(m, AllEdges(files, resolve, Walk(files, resolve, false, root)))
    ensures e.child in m && e in m[e.child]
            <==> exists l :: l in Walk(files, resolve, true, root) && e in EdgesAt(files, resolve, l)
  {
    WalksAgree(files, resolve, root);
    var walk := Walk(files, resolve, true, root);
    AllEdgesMember(files, resolve, walk, e);
    IntoMember(AllEdges(files, resolve, walk), e.child, e);
    hide Walk, AllEdges, EdgesAt, Into, AllReadable;
    assert (if e.child in m then m[e.child] else []) == Into(AllEdges(files, resolve, walk), e.child);
  }
}
