/** What discovery reads in a config file, key by key, where it goes from there, and in which order. */
module WalkLaws {
  import opened BreadthFirst
  import opened BreadthOrder
  import opened Collections
  import opened Options
  import opened ConfigValue
  import opened CompanyWalk

  /** The raw delegate list of a file: `tools.agents`, or nothing where there are no tools or no agents. */
  predicate Declares(data: Value, agents: seq<Value>) {
    && data.Map?
    && if "tools" in data.entries && data.entries["tools"] != Null then
         && data.entries["tools"].Map?
         && var tools := data.entries["tools"].entries;
            if "agents" in tools then tools["agents"] == List(agents) else agents == []
       else agents == []
  }

  /** A delegate has a name and a config path, both text. */
  predicate IsDelegate(raw: Value, name: string, config: string) {
    && raw.Map?
    && "name" in raw.entries && raw.entries["name"] == Text(name)
    && "config" in raw.entries && raw.entries["config"] == Text(config)
  }

  predicate TimeoutOk(raw: Value) {
    raw.Map? && "timeout_s" in raw.entries ==>
      var t := raw.entries["timeout_s"]; t.Int? || t.Float? || t.Bool?
  }

  lemma DeclaresIs(data: Value)
    ensures forall agents :: Declares(data, agents) <==> AgentList(data) == Some(agents)
  {
  }

  lemma DelegateIs(raw: Value)
    ensures forall name, config :: IsDelegate(raw, name, config)
              ==> RefOf(raw).Some? && RefOf(raw).value.name == name && RefOf(raw).value.config == config
                  && (Number(RefOf(raw).value.timeout).Some? <==> TimeoutOk(raw))
    ensures RefOf(raw).Some? ==> IsDelegate(raw, RefOf(raw).value.name, RefOf(raw).value.config)
  {
  }

  ghost predicate Usable(raw: Value, timed: bool) {
    (exists name, config :: IsDelegate(raw, name, config)) && (timed ==> TimeoutOk(raw))
  }

  lemma UsableIs(raw: Value, timed: bool)
    ensures Usable(raw, timed) <==> RefOf(raw).Some? && (timed ==> Number(RefOf(raw).value.timeout).Some?)
  {
    DelegateIs(raw);
    hide RefOf, TimeoutOk;
  }

  lemma RefsUsable(agents: seq<Value>, timed: bool)
    ensures Refs(agents).Some? && (timed ==> Timed(Refs(agents).value))
            <==> forall i :: 0 <= i < |agents| ==> Usable(agents[i], timed)
  {
    hide RefOf, Usable, Refs;
    forall i | 0 <= i < |agents|
      ensures Usable(agents[i], timed)
              <==> RefOf(agents[i]).Some? && (timed ==> Number(RefOf(agents[i]).value.timeout).Some?)
      ensures Refs(agents).Some? ==> |Refs(agents).value| == |agents| && RefOf(agents[i]) == Some(Refs(agents).value[i])
    {
      UsableIs(agents[i], timed);
      if Refs(agents).Some? {
        RefsAt(agents, i);
      }
    }
    if Refs(agents).Some? {
      RefsLength(agents);
    }
    if forall i :: 0 <= i < |agents| ==> Usable(agents[i], timed) {
      RefsAll(agents);
    }
  }

  /** A config can be read exactly if its file is a mapping whose delegates, if any, form a list of usable
      entries; a timeout that is there must be a number when discovery asks for it. */
  lemma ReadableExactly(files: Files, path: string, timed: bool)
    ensures Readable(files, path, timed)
            <==> path in files
                 && exists agents :: Declares(files[path], agents)
                                     && forall i :: 0 <= i < |agents| ==> Usable(agents[i], timed)
  {
    if path in files {
      DeclaresIs(files[path]);
      if AgentList(files[path]).Some? {
        RefsUsable(AgentList(files[path]).value, timed);
      }
    }
    hide AgentList, Refs, Usable, Declares, Timed;
  }

  /** From there the walk goes on to each delegate in the order of the list, and an edge is filed for each: the
      path is resolved from the config's own, and the name is appended. */
  lemma StepsExactly(files: Files, resolve: Resolver, timed: bool, at: Location, agents: seq<Value>)
    requires Readable(files, at.path, timed) && Declares(files[at.path], agents)
    ensures |Successors(files, resolve, timed, at)| == |agents| == |EdgesAt(files, resolve, at)|
    ensures forall i, name, config :: 0 <= i < |agents| && IsDelegate(agents[i], name, config) ==>
              && Successors(files, resolve, timed, at)[i] == Location(resolve(at.path, config), at.org + "/" + name)
              && EdgesAt(files, resolve, at)[i]
                 == Edge(at.path, i, resolve(at.path, config), at.org + "/" + name)
  {
    DeclaresIs(files[at.path]);
    RefsLength(agents);
    hide IsDelegate, RefOf, AgentList, Refs, Timed, Declares;
    forall i, name, config | 0 <= i < |agents| && IsDelegate(agents[i], name, config)
      ensures Refs(agents).value[i].name == name && Refs(agents).value[i].config == config
    {
      RefsAt(agents, i);
      DelegateIs(agents[i]);
    }
  }

  // ---------------------------------------------------------------- the order of the walk

  /** All that is ever queued: the root, and the delegates of each listed location in turn. */
  function Queued(files: Files, resolve: Resolver, timed: bool, root: string, listed: seq<Location>): seq<Location> {
    [Location(root, "root")] + Offered(SuccOf(files, resolve, timed), listed)
  }

  /** The walk from its parts, without unfolding either. */
  lemma WalkVisits(files: Files, resolve: Resolver, timed: bool, root: string)
    ensures Follows(SuccOf(files, resolve, timed), PathKey(), NextOf(files, resolve, timed))
    ensures Closed(NextOf(files, resolve, timed), Universe(files, resolve, timed, root))
    ensures KeysOf([Location(root, "root")], PathKey()) <= Universe(files, resolve, timed, root)
    ensures Walk(files, resolve, timed, root)
            == Visit(SuccOf(files, resolve, timed), PathKey(), NextOf(files, resolve, timed),
                     Universe(files, resolve, timed, root), [Location(root, "root")], {})
  {
    hide Visit, Universe, Follows, Closed, KeysOf, SuccOf, NextOf;
    WalkFits(files, resolve, timed, root);
  }

  /** The walk lists the first location of each path among all that is queued, in that order: so a config with
      several delegators goes by the name it got first. */
  lemma WalkInOrder(files: Files, resolve: Resolver, timed: bool, root: string) returns (places: seq<nat>)
    ensures var walk := Walk(files, resolve, timed, root);
            var queued := Queued(files, resolve, timed, root, walk);
            && Ascending(places) && Picked(walk, queued, places)
            && forall k: nat :: k in places
                 <==> k < |queued| && forall j :: 0 <= j < k ==> queued[j].path != queued[k].path
  {
    hide Walk, Visit, Universe, Follows, Closed, KeysOf, SuccOf, NextOf, Offered, Firsts, Picked;
    WalkVisits(files, resolve, timed, root);
    var walk := Walk(files, resolve, timed, root);
    VisitsFirsts(SuccOf(files, resolve, timed), PathKey(), NextOf(files, resolve, timed),
                 Universe(files, resolve, timed, root), [Location(root, "root")], {});
    var queued := Queued(files, resolve, timed, root, walk);
    places := FirstsAre(queued, PathKey(), {});
    forall k: nat
      ensures IsFirst(queued, PathKey(), {}, k)
              <==> k < |queued| && forall j :: 0 <= j < k ==> queued[j].path != queued[k].path
    {
      FirstPath(queued, k);
    }
  }

  lemma FirstPath(queued: seq<Location>, k: nat)
    ensures IsFirst(queued, PathKey(), {}, k)
            <==> k < |queued| && forall j :: 0 <= j < k ==> queued[j].path != queued[k].path
  {
    if k < |queued| && forall j :: 0 <= j < k ==> queued[j].path != queued[k].path {
      forall j | 0 <= j < k ensures PathKey()(queued[j]) != PathKey()(queued[k]) {
      }
    }
    if IsFirst(queued, PathKey(), {}, k) {
      forall j | 0 <= j < k ensures queued[j].path != queued[k].path {
        assert PathKey()(queued[j]) != PathKey()(queued[k]);
      }
    }
  }

  /** Listed as a delegate of an earlier config that is one step nearer. */
  predicate OneNearer(files: Files, resolve: Resolver, timed: bool, walk: seq<Location>, steps: seq<nat>, m: nat)
    requires |steps| == |walk| && m < |walk|
  {
    exists l :: 0 <= l < m && walk[m] in Successors(files, resolve, timed, walk[l]) && steps[m] == steps[l] + 1
  }

  lemma OneNearerIs(files: Files, resolve: Resolver, timed: bool, walk: seq<Location>, steps: seq<nat>, m: nat)
    requires |steps| == |walk| && m < |walk| && FromVisited(SuccOf(files, resolve, timed), walk, steps, m)
    ensures OneNearer(files, resolve, timed, walk, steps, m)
  {
    hide Successors;
    var l :| 0 <= l < m && walk[m] in SuccOf(files, resolve, timed)(walk[l]) && steps[m] == steps[l] + 1;
  }

  lemma PathKeyIs(at: Location)
    ensures PathKey()(at) == at.path
  {
  }

  /** Configs nearer to the root are listed first, and each is named after a config one delegation nearer to the
      root, so by a shortest chain of delegations. */
  lemma NearestListedFirst(files: Files, resolve: Resolver, timed: bool, root: string) returns (steps: seq<nat>)
    ensures var walk := Walk(files, resolve, timed, root);
      && |steps| == |walk| && Steady(steps)
      && (forall m :: 0 <= m < |walk| ==> Distance(NextOf(files, resolve, timed), root, walk[m].path, steps[m]))
      && forall m: nat :: m < |walk| ==>
           || (walk[m] == Location(root, "root") && steps[m] == 0)
           || OneNearer(files, resolve, timed, walk, steps, m)
  {
    WalkVisits(files, resolve, timed, root);
    var start := Location(root, "root");
    steps := NearestFirst(SuccOf(files, resolve, timed), PathKey(), NextOf(files, resolve, timed),
                          Universe(files, resolve, timed, root), start);
    hide *;
    var walk := Walk(files, resolve, timed, root);
    forall m: nat | m < |walk| && FromVisited(SuccOf(files, resolve, timed), walk, steps, m)
      ensures OneNearer(files, resolve, timed, walk, steps, m)
    {
      OneNearerIs(files, resolve, timed, walk, steps, m);
    }
    forall m: nat | m < |walk|
      ensures Distance(NextOf(files, resolve, timed), root, walk[m].path, steps[m])
    {
      PathKeyIs(walk[m]);
      PathKeyIs(start);
    }
  }
}
