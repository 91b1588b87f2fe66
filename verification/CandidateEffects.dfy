/** Which way a whole run moves what is effective, file by file: the values of delegated nodes, the root's
    spawn limit and the timeouts of delegations. */
module CandidateEffects {
  import opened Options
  import opened Reals
  import opened ConfigValue
  import opened CompanyWalk
  import opened Candidate
  import opened CandidateRun

  // ---------------------------------------------------------------- one node

  /** The stages' edits of other sections keep a node's delegates. */
  lemma TunedSpawner(fw: Framework, k: Knobs, data: map<string, Value>)
    ensures var d1 := Outcome(FloorEdit(fw, k, data), data);
            Spawner(Outcome(TuneEdit(fw, k, d1), d1)) <==> Spawner(data)
  {
    var d1 := Outcome(FloorEdit(fw, k, data), data);
    var d2 := Outcome(TuneEdit(fw, k, d1), d1);
    hide FloorEdit, TuneEdit, AgentList, Spawner, Outcome;
    FloorKeeps(fw, k, data);
    TuneKeeps(fw, k, d1);
    AgentsOf(data);
    AgentsOf(d2);
  }

  lemma SpawnsMove(k: Knobs, spawns: Value, spawner: bool)
    ensures WentDown(spawns, LimitedSpawns(k, spawns, spawner)) <==> spawner && FloatAbove(spawns, k.maxSpawns)
  {
  }

  /** How the effective values of a delegated node move. A floor lowers exactly the floats above it; tokens
      never go down, and reach their floor exactly when they are whole; the cost cap never goes up. */
  ghost predicate Moved(k: Knobs, v: View, v': View, spawner: bool) {
    var tokens, tokens' := Get(v.llm, "max_tokens"), Get(v'.llm, "max_tokens");
    && (WentDown(v.steps, v'.steps) <==> FloatAbove(v.steps, k.stepBudget))
    && (WentDown(v.topK, v'.topK) <==> FloatAbove(v.topK, k.topK))
    && (WentDown(v.spawns, v'.spawns) <==> spawner && FloatAbove(v.spawns, k.maxSpawns))
    && !WentDown(tokens, tokens')
    && (k.tokenFloor.Some? ==> (Reaches(tokens', k.tokenFloor.value) <==> Whole(tokens).Some?))
    && !WentUp(v.cost, v'.cost)
  }

  /** A delegated node after all stages. */
  lemma NodeMoved(fw: Framework, k: Knobs, data: map<string, Value>, done: set<nat>)
    requires IsFramework(fw) && Bounded(k) && Effective(fw, data).Some?
    ensures var d1 := Outcome(FloorEdit(fw, k, data), data);
            var d2 := Outcome(TuneEdit(fw, k, d1), d1);
            var d4 := RaisedIf(Outcome(SpawnEdit(fw, k, d2), d2), k.timeout, done);
            && Effective(fw, d4).Some?
            && Moved(k, ViewOf(Effective(fw, data).value), ViewOf(Effective(fw, d4).value), Spawner(data))
  {
    var d1 := Outcome(FloorEdit(fw, k, data), data);
    var d2 := Outcome(TuneEdit(fw, k, d1), d1);
    var d4 := RaisedIf(Outcome(SpawnEdit(fw, k, d2), d2), k.timeout, done);
    hide Effective, IsFramework, ViewOf, FloorEdit, TuneEdit, SpawnEdit, RaisedIf, Outcome, Spawner, RunsOn,
         LimitedSpawns, WentDown, WentUp, FloatAbove, StepsNeeded, TopKNeeded, StrategyNeeded, CostNeeded, ModelNeeded;
    FloorOutcome(fw, k, data);
    TokensMove(fw, k, data);
    TuneOutcome(fw, k, d1);
    LimitSettled(fw, k, d2, done);
    TunedSpawner(fw, k, data);
    var v1, v2 := ViewOf(Effective(fw, d1).value), ViewOf(Effective(fw, d2).value);
    TunedMoves(fw, k, v1, v2);
    SpawnsMove(k, v2.spawns, Spawner(data));
  }

  // ---------------------------------------------------------------- a whole run

  /** The effective values of one file. */
  ghost function Viewed(fw: Framework, files: Files, p: string): View
    requires Loads(fw, files, p)
  {
    ViewOf(Effective(fw, files[p].entries).value)
  }

  /** Every delegated node loads before and after a run, and its values move as said. */
  lemma RunMoves(fw: Framework, resolve: Resolver, root: string, k: Knobs, files: Files, p: string)
    requires IsFramework(fw) && Bounded(k) && Found(files, resolve, root) && StagesRan(fw, resolve, root, k, files)
    requires p in StagePaths(files, resolve, root, true)
    ensures var final := Applied(fw, resolve, root, k, files);
            && Loads(fw, files, p) && Loads(fw, final, p)
            && Moved(k, Viewed(fw, files, p), Viewed(fw, final, p), Spawner(files[p].entries))
  {
    StagePathsFacts(files, resolve, root, p);
    var done := FinalFile(fw, resolve, root, k, files, p);
    hide StagePaths, Found, Doable, Floored, TunedFiles, Applied, IsFramework, FloorEdit, TuneEdit, SpawnEdit, RaisedIf,
         Effective, ViewOf, Moved, Outcome, Spawner, Bounded;
    var data := files[p].entries;
    DoableAt(files, StagePaths(files, resolve, root, true), FloorEditor(fw, k), p);
    DoableAt(Floored(fw, resolve, root, k, files), StagePaths(files, resolve, root, true), TuneEditor(fw, k), p);
    FloorLoads(fw, k, data);
    NodeMoved(fw, k, data, done);
  }

  /** The root's effective values stay as they are but for its spawn limit, which moves the same way. */
  lemma RootMoves(fw: Framework, resolve: Resolver, root: string, k: Knobs, files: Files)
    requires IsFramework(fw) && Found(files, resolve, root) && Loads(fw, files, root)
    ensures var final := Applied(fw, resolve, root, k, files);
            && Loads(fw, final, root)
            && var v, v' := Viewed(fw, files, root), Viewed(fw, final, root);
               && v' == v.(spawns := v'.spawns)
               && (WentDown(v.spawns, v'.spawns) <==> Spawner(files[root].entries) && FloatAbove(v.spawns, k.maxSpawns))
               && (k.maxSpawns.Some? && Spawner(files[root].entries)
                   ==> Reaches(v'.spawns, k.maxSpawns.value))
  {
    RootFound(files, resolve, root);
    var done := FinalFile(fw, resolve, root, k, files, root);
    hide StagePaths, Found, Floored, TunedFiles, Applied, IsFramework, SpawnEdit, RaisedIf, Effective, ViewOf, Outcome,
         Spawner, WentDown, FloatAbove, LimitedSpawns;
    var data := files[root].entries;
    LimitSettled(fw, k, data, done);
    SpawnsMove(k, ViewOf(Effective(fw, data).value).spawns, Spawner(data));
  }

  // ---------------------------------------------------------------- delegations

  /** The timeout of a delegation, which is its list entry's: lists are not merged with the defaults. */
  function TimeoutOf(files: Files, edge: Edge): Value
    requires EdgeFits(files, edge)
  {
    var entry := AgentList(files[edge.parent]).value[edge.index];
    if entry.Map? && "timeout_s" in entry.entries then entry.entries["timeout_s"] else Float(120.0)
  }

  /** The later stages' files list the same agents as the first. */
  lemma LimitedAgents(fw: Framework, resolve: Resolver, root: string, k: Knobs, files: Files, p: string)
    requires p in files
    ensures var limited := Limited(fw, resolve, root, k, files);
            p in limited && AgentList(limited[p]) == AgentList(files[p])
  {
    var f1, f2 := Floored(fw, resolve, root, k, files), TunedFiles(fw, resolve, root, k, files);
    hide StagePaths, AgentList, KeepsAgents, Rewritten;
    EditorsKeepAgents(fw, k);
    RewrittenAgents(files, StagePaths(files, resolve, root, true), FloorEditor(fw, k), p);
    RewrittenAgents(f1, StagePaths(files, resolve, root, true), TuneEditor(fw, k), p);
    RewrittenAgents(f2, StagePaths(files, resolve, root, false), SpawnEditor(fw, k), p);
  }

  lemma LimitedEdges(fw: Framework, resolve: Resolver, root: string, k: Knobs, files: Files)
    requires Found(files, resolve, root)
    ensures Edges(Limited(fw, resolve, root, k, files), resolve, root) == Edges(files, resolve, root)
  {
    var limited := Limited(fw, resolve, root, k, files);
    var walk := Walk(files, resolve, true, root);
    hide *;
    FoundIs(files, resolve, root);
    forall l | l in walk
      ensures SameLeads(files, limited, l.path) && EdgesAt(limited, resolve, l) == EdgesAt(files, resolve, l)
    {
      if l.path in files {
        LimitedAgents(fw, resolve, root, k, files, l.path);
      }
      SameAgentsSameLeads(files, limited, l.path);
      ReadableAt(files, walk, l);
      SameEdgesAt(files, limited, resolve, l);
    }
    WalkKept(files, limited, resolve, root);
    WalksAgree(files, resolve, root);
    WalksAgree(limited, resolve, root);
    SameAllEdges(files, limited, resolve, walk);
    EdgesIs(files, resolve, root);
    EdgesIs(limited, resolve, root);
  }

  lemma ReadableAt(files: Files, locations: seq<Location>, l: Location)
    requires AllReadable(files, locations, true) && l in locations
    ensures Readable(files, l.path, true)
  {
    hide Readable;
  }

  /** What discovery checked of the entry an edge comes from. */
  lemma EdgeTimed(files: Files, resolve: Resolver, root: string, edge: Edge)
    requires Found(files, resolve, root) && edge in Edges(files, resolve, root)
    ensures EdgeFits(files, edge) && Number(TimeoutOf(files, edge)).Some?
    ensures AgentList(files[edge.parent]).value[edge.index].Map?
  {
    FoundIs(files, resolve, root);
    WalksAgree(files, resolve, root);
    var walk := Walk(files, resolve, true, root);
    hide Walk;
    AllEdgesMember(files, resolve, walk, edge);
    var l :| l in walk && edge in EdgesAt(files, resolve, l);
    EntryFits(files, resolve, l, edge);
    ReadableAt(files, walk, l);
    EntryTimed(AgentList(files[l.path]).value, edge.index);
    hide AgentList, Refs, EdgesAt;
  }

  lemma EntryTimed(agents: seq<Value>, i: nat)
    requires Refs(agents).Some? && Timed(Refs(agents).value) && i < |agents|
    ensures agents[i].Map?
    ensures Number(if "timeout_s" in agents[i].entries then agents[i].entries["timeout_s"] else Float(120.0)).Some?
  {
    RefsAt(agents, i);
    hide Refs;
  }

  /** Files with the same list at an edge's parent. */
  lemma SameEntry(files: Files, files': Files, edge: Edge)
    requires EdgeFits(files, edge) && edge.parent in files'
    requires AgentList(files'[edge.parent]) == AgentList(files[edge.parent])
    ensures EdgeFits(files', edge) && TimeoutOf(files', edge) == TimeoutOf(files, edge)
  {
    assert files'[edge.parent].Map?;
    assert files[edge.parent] == Map(files[edge.parent].entries);
    assert files'[edge.parent] == Map(files'[edge.parent].entries);
    AgentsOf(files[edge.parent].entries);
    AgentsOf(files'[edge.parent].entries);
    hide AgentList, Spawner;
  }

  /** A raised entry has the later of the two timeouts. */
  lemma RaisedTimeout(files: Files, t: real, done: set<(string, nat)>, edge: Edge)
    requires EdgeFits(files, edge) && (edge.parent, edge.index) in done
    requires Number(TimeoutOf(files, edge)).Some? && AgentList(files[edge.parent]).value[edge.index].Map?
    ensures EdgeFits(RaisedFiles(files, t, done), edge)
    ensures Number(TimeoutOf(RaisedFiles(files, t, done), edge))
            == Some(MaxReal(Number(TimeoutOf(files, edge)).value, t))
  {
    var data, indices := files[edge.parent].entries, IndicesOf(done, edge.parent);
    assert files[edge.parent] == Map(data) && edge.index in indices;
    CurrentList(data, t, indices);
    hide AgentList, Spawner, RaisedData;
  }

  /** A run keeps the delegations, and each timeout ends as the larger of its own and the candidate's. */
  lemma TimeoutsMove(fw: Framework, resolve: Resolver, root: string, k: Knobs, files: Files, edge: Edge)
    requires Found(files, resolve, root) && edge in Edges(files, resolve, root)
    ensures var final := Applied(fw, resolve, root, k, files);
            && Edges(final, resolve, root) == Edges(files, resolve, root)
            && EdgeFits(files, edge) && EdgeFits(final, edge)
            && var before, now := Number(TimeoutOf(files, edge)), Number(TimeoutOf(final, edge));
               before.Some? && now == match k.timeout case Some(t) => Some(MaxReal(before.value, t)) case None => before
  {
    var limited := Limited(fw, resolve, root, k, files);
    hide *;
    StageFiles(fw, resolve, root, k, files);
    StagesAgree(fw, resolve, root, k, files);
    LimitedEdges(fw, resolve, root, k, files);
    EdgeTimed(files, resolve, root, edge);
    EdgeTimed(limited, resolve, root, edge);
    FitsIn(files, edge);
    LimitedAgents(fw, resolve, root, k, files, edge.parent);
    SameEntry(files, limited, edge);
    if k.timeout.Some? {
      PairOf(Edges(limited, resolve, root), edge);
      RaisedTimeout(limited, k.timeout.value, PairsOf(Edges(limited, resolve, root)), edge);
      RaisedEdges(limited, resolve, root, k.timeout.value, PairsOf(Edges(limited, resolve, root)));
    }
  }
}
