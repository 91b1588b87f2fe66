/** Applying a candidate to every config of a compiled company, file by file. */
module CandidateRun {
  import opened Options
  import opened ConfigValue
  import opened ConfigEdit
  import opened BreadthFirst
  import opened CompanyWalk
  import opened Candidate

  // ---------------------------------------------------------------- edits keep the delegates

  lemma AgentsOf(data: map<string, Value>)
    ensures Spawner(data) <==> AgentList(Map(data)).Some? && AgentList(Map(data)).value != []
    ensures Spawner(data)
            ==> At(Map(data), ["tools", "agents"]) == Some(List(AgentList(Map(data)).value))
  {
    AtTwo(Map(data), "tools", "agents");
    hide At;
  }

  lemma OtherSection(data: map<string, Value>, path: Path, x: Value)
    requires path != [] && path[0] != "tools"
    ensures AgentList(Map(PutIn(data, path, x))) == AgentList(Map(data))
  {
    assert Get(PutIn(data, path, x), "tools") == Get(data, "tools");
  }

  lemma SpawnLimitKeeps(data: map<string, Value>, x: Value)
    requires Spawner(data)
    ensures AgentList(Map(PutIn(data, ["tools", "max_parallel_spawns"], x))) == AgentList(Map(data))
  {
    AtTwo(Map(data), "tools", "agents");
    var tools := data["tools"].entries;
    assert ["tools", "max_parallel_spawns"] == ["tools"] + ["max_parallel_spawns"];
    PutKey(Map(data), "tools", ["max_parallel_spawns"], x);
    SingleKeyPut(tools, "max_parallel_spawns", x);
    hide At, Put;
  }

  lemma AgentsReplaced(data: map<string, Value>, items: seq<Value>)
    requires Spawner(data)
    ensures AgentList(Map(PutIn(data, ["tools", "agents"], List(items)))) == Some(items)
  {
    AtTwo(Map(data), "tools", "agents");
    var tools := data["tools"].entries;
    assert ["tools", "agents"] == ["tools"] + ["agents"];
    PutKey(Map(data), "tools", ["agents"], List(items));
    SingleKeyPut(tools, "agents", List(items));
    hide At, Put;
  }

  lemma FloorKeeps(fw: Framework, k: Knobs, data: map<string, Value>)
    ensures AgentList(Map(Outcome(FloorEdit(fw, k, data), data))) == AgentList(Map(data))
  {
    hide Effective, ViewOf, AgentList, PutIn;
    if k.tokenFloor.Some? {
      OtherSection(data, ["llm", "max_tokens"], Int(k.tokenFloor.value));
    }
  }

  lemma BudgetKeeps(data: map<string, Value>, field: string, x: Value)
    ensures AgentList(Map(WithBudget(data, field, x))) == AgentList(Map(data))
  {
    hide AgentList, PutIn, HasOverride;
    OtherSection(data, ["agent", field], x);
    OtherSection(PutIn(data, ["agent", field], x), ["agent", "subagent", field], x);
  }

  lemma TuneKeeps(fw: Framework, k: Knobs, data: map<string, Value>)
    ensures AgentList(Map(Outcome(TuneEdit(fw, k, data), data))) == AgentList(Map(data))
  {
    hide Effective, ViewOf, AgentList, PutIn, WithBudget, Candidate.Reaches, CostWithin, RunsOn;
    if Effective(fw, data).Some? {
      var v := ViewOf(Effective(fw, data).value);
      var d1 := TunedSteps(v, k, data);
      if StepsNeeded(v, k) {
        BudgetKeeps(data, "max_steps", Int(k.stepBudget.value));
      }
      var d2 := TunedTopK(v, k, d1);
      if TopKNeeded(v, k) {
        OtherSection(d1, ["memory", "top_k"], Int(k.topK.value));
      }
      var d3 := TunedStrategy(v, k, d2);
      if StrategyNeeded(v, k) {
        OtherSection(d2, ["memory", "retrieval_strategy"], Text(k.strategy.value));
      }
      var d4 := TunedCost(v, k, d3);
      if CostNeeded(v, k) {
        BudgetKeeps(d3, "max_cost_usd", Float(k.costCeiling.value));
      }
      if ModelNeeded(fw, v, k) {
        OtherSection(d4, ModelPath(k.roleModel.value.0), Text(k.roleModel.value.1));
      }
    }
  }

  lemma SpawnKeeps(fw: Framework, k: Knobs, data: map<string, Value>)
    ensures AgentList(Map(Outcome(SpawnEdit(fw, k, data), data))) == AgentList(Map(data))
  {
    hide Effective, ViewOf, AgentList, PutIn, Spawner;
    if k.maxSpawns.Some? && Spawner(data) {
      SpawnLimitKeeps(data, Int(k.maxSpawns.value));
    }
  }

  /** Raising timeouts keeps names and configs, and numbers numbers. */
  lemma RaisedRef(entry: Value, t: real)
    ensures RefOf(entry).None? ==> RefOf(RaisedEntry(entry, t)).None?
    ensures RefOf(entry).Some?
            ==> RefOf(RaisedEntry(entry, t)).Some?
                && RefOf(RaisedEntry(entry, t)).value.name == RefOf(entry).value.name
                && RefOf(RaisedEntry(entry, t)).value.config == RefOf(entry).value.config
                && (Number(RefOf(entry).value.timeout).Some?
                    ==> Number(RefOf(RaisedEntry(entry, t)).value.timeout).Some?)
  {
  }

  /** The two lists name the same delegates. */
  ghost predicate SameRefs(a: seq<AgentRef>, b: seq<AgentRef>) {
    && |a| == |b|
    && forall i :: 0 <= i < |a| ==> a[i].name == b[i].name && a[i].config == b[i].config
  }

  lemma RaisedRefs(agents: seq<Value>, t: real, done: set<nat>)
    requires Refs(agents).Some?
    ensures Refs(RaisedList(agents, t, done)).Some?
    ensures SameRefs(Refs(agents).value, Refs(RaisedList(agents, t, done)).value)
    ensures Timed(Refs(agents).value) ==> Timed(Refs(RaisedList(agents, t, done)).value)
  {
    var raised := RaisedList(agents, t, done);
    forall i | 0 <= i < |agents|
      ensures RefOf(raised[i]).Some? && RefOf(agents[i]).Some?
      ensures RefOf(raised[i]).value.name == RefOf(agents[i]).value.name
      ensures RefOf(raised[i]).value.config == RefOf(agents[i]).value.config
      ensures Number(RefOf(agents[i]).value.timeout).Some? ==> Number(RefOf(raised[i]).value.timeout).Some?
    {
      RefsAt(agents, i);
      RaisedRef(agents[i], t);
    }
    hide RefOf, RaisedList, Refs;
    RefsAll(raised);
    RefsLength(agents);
    RefsLength(raised);
    forall i | 0 <= i < |agents|
      ensures RefOf(raised[i]) == Some(Refs(raised).value[i]) && RefOf(agents[i]) == Some(Refs(agents).value[i])
    {
      RefsAt(agents, i);
      RefsAt(raised, i);
    }
  }

  // ---------------------------------------------------------------- the walk survives the edits

  /** The file leads to the same delegates as before. */
  ghost predicate SameLeads(files: Files, files': Files, path: string) {
    Readable(files, path, true) ==>
      && Readable(files', path, true)
      && SameRefs(Delegates(files, path, true).value, Delegates(files', path, true).value)
  }

  lemma SameLocations(resolve: Resolver, at: Location, a: seq<AgentRef>, b: seq<AgentRef>)
    requires SameRefs(a, b)
    ensures Children(resolve, at, a) == Children(resolve, at, b)
  {
  }

  lemma SameSuccessors(files: Files, files': Files, resolve: Resolver, l: Location)
    requires Readable(files, l.path, true) && SameLeads(files, files', l.path)
    ensures Successors(files, resolve, true, l) == Successors(files', resolve, true, l)
  {
    hide Delegates, Children, SameRefs;
    SameLocations(resolve, l, Delegates(files, l.path, true).value, Delegates(files', l.path, true).value);
  }

  /** So discovery finds the same locations, and all of them readable. */
  lemma WalkKept(files: Files, files': Files, resolve: Resolver, root: string)
    requires AllReadable(files, Walk(files, resolve, true, root), true)
    requires forall l :: l in Walk(files, resolve, true, root) ==> SameLeads(files, files', l.path)
    ensures Walk(files', resolve, true, root) == Walk(files, resolve, true, root)
    ensures AllReadable(files', Walk(files', resolve, true, root), true)
  {
    WalkFits(files, resolve, true, root);
    WalkFits(files', resolve, true, root);
    forall l | l in Walk(files, resolve, true, root)
      ensures SuccOf(files, resolve, true)(l) == SuccOf(files', resolve, true)(l)
    {
      SameSuccessors(files, files', resolve, l);
    }
    VisitAgrees(SuccOf(files, resolve, true), SuccOf(files', resolve, true), PathKey(),
                NextOf(files, resolve, true), NextOf(files', resolve, true),
                Universe(files, resolve, true, root), Universe(files', resolve, true, root),
                [Location(root, "root")], {});
  }

  lemma SameAgentsSameLeads(files: Files, files': Files, path: string)
    requires path in files ==> path in files' && AgentList(files'[path]) == AgentList(files[path])
    ensures SameLeads(files, files', path)
  {
    hide AgentList, Refs;
  }

  // ---------------------------------------------------------------- one stage over the files

  type Editor = map<string, Value> -> Option<Edit>

  function Edited(edit: Editor, v: Value): Value {
    if v.Map? then Map(Outcome(edit(v.entries), v.entries)) else v
  }

  /** The files with one stage applied to those at `paths`. */
  function Rewritten(files: Files, paths: set<string>, edit: Editor): Files {
    map p | p in files :: if p in paths then Edited(edit, files[p]) else files[p]
  }

  /** The stage can be carried out. */
  predicate Doable(files: Files, paths: set<string>, edit: Editor) {
    forall p :: p in paths && p in files && files[p].Map? ==> edit(files[p].entries).Some?
  }

  /** The stage has nothing to write. */
  predicate Idle(files: Files, paths: set<string>, edit: Editor) {
    forall p :: p in paths && p in files && files[p].Map? ==> edit(files[p].entries) == Some(Keep)
  }

  lemma IdleKeeps(files: Files, paths: set<string>, edit: Editor)
    requires Idle(files, paths, edit)
    ensures Rewritten(files, paths, edit) == files
  {
  }

  function PathsOf(locations: seq<Location>): set<string> {
    set l | l in locations :: l.path
  }

  predicate MapFiles(files: Files, locations: seq<Location>) {
    forall l :: l in locations ==> l.path in files && files[l.path].Map?
  }

  lemma ReadableIsMap(files: Files, locations: seq<Location>)
    requires AllReadable(files, locations, true)
    ensures MapFiles(files, locations)
  {
    forall l | l in locations ensures l.path in files && files[l.path].Map? {
      assert Readable(files, l.path, true);
    }
  }

  function MarkChanged(changed: seq<string>, org: string): (r: seq<string>)
    ensures r != []
  {
    if org in changed then changed else changed + [org]
  }

  lemma OneMoreRewritten(before: Files, paths: set<string>, edit: Editor, p: string)
    requires p in before && p !in paths
    ensures Rewritten(before, paths + {p}, edit) == Rewritten(before, paths, edit)[p := Edited(edit, before[p])]
  {
  }

  lemma OneMorePath(locations: seq<Location>, i: nat)
    requires i < |locations|
    ensures PathsOf(locations[..i + 1]) == PathsOf(locations[..i]) + {locations[i].path}
    ensures DistinctKeys(locations, PathKey()) ==> locations[i].path !in PathsOf(locations[..i])
  {
    assert locations[..i + 1] == locations[..i] + [locations[i]];
    if DistinctKeys(locations, PathKey()) {
      forall l | l in locations[..i] ensures l.path != locations[i].path {
        var j :| 0 <= j < i && locations[j] == l;
        assert PathKey()(locations[j]) != PathKey()(locations[i]);
      }
    }
  }

  /** The stages' questions, as editors. */
  function FloorEditor(fw: Framework, k: Knobs): Editor {
    (data: map<string, Value>) => FloorEdit(fw, k, data)
  }

  function TuneEditor(fw: Framework, k: Knobs): Editor {
    (data: map<string, Value>) => TuneEdit(fw, k, data)
  }

  function SpawnEditor(fw: Framework, k: Knobs): Editor {
    (data: map<string, Value>) => SpawnEdit(fw, k, data)
  }

  datatype Stage = FloorStage | TuneStage | SpawnStage

  function EditorOf(fw: Framework, k: Knobs, stage: Stage): Editor {
    match stage
    case FloorStage => FloorEditor(fw, k)
    case TuneStage => TuneEditor(fw, k)
    case SpawnStage => SpawnEditor(fw, k)
  }

  lemma Editors(fw: Framework, k: Knobs)
    ensures EditorOf(fw, k, FloorStage) == FloorEditor(fw, k)
    ensures EditorOf(fw, k, TuneStage) == TuneEditor(fw, k)
    ensures EditorOf(fw, k, SpawnStage) == SpawnEditor(fw, k)
  {
    hide FloorEditor, TuneEditor, SpawnEditor;
  }

  /** One node at one stage. */
  method EditNode(fw: Framework, k: Knobs, stage: Stage, data: map<string, Value>) returns (r: Option<Edit>)
    requires IsFramework(fw)
    ensures r == EditorOf(fw, k, stage)(data)
  {
    hide IsFramework, FloorEdit, TuneEdit, SpawnEdit;
    match stage {
      case FloorStage => r := FloorNode(fw, k, data);
      case TuneStage => r := TuneNode(fw, k, data);
      case SpawnStage => r := SpawnNode(fw, k, data);
    }
  }

  // ---------------------------------------------------------------- timeouts over the files

  function IndicesOf(done: set<(string, nat)>, p: string): set<nat> {
    set e | e in done && e.0 == p :: e.1
  }

  function RaisedFile(v: Value, t: real, done: set<nat>): Value {
    if v.Map? then Map(RaisedData(v.entries, t, done)) else v
  }

  /** The files with the entries in `done` raised. */
  function RaisedFiles(files: Files, t: real, done: set<(string, nat)>): Files {
    map p | p in files :: RaisedFile(files[p], t, IndicesOf(done, p))
  }

  function PairsOf(edges: seq<Edge>): set<(string, nat)> {
    set e | e in edges :: (e.parent, e.index)
  }

  lemma PutSelf(data: map<string, Value>)
    requires Spawner(data)
    ensures PutIn(data, ["tools", "agents"], At(Map(data), ["tools", "agents"]).value) == data
  {
    AtTwo(Map(data), "tools", "agents");
    var tools := data["tools"].entries;
    assert ["tools", "agents"] == ["tools"] + ["agents"];
    PutKey(Map(data), "tools", ["agents"], tools["agents"]);
    SingleKeyPut(tools, "agents", tools["agents"]);
    hide At, Put;
    assert tools["agents" := tools["agents"]] == tools;
    assert data["tools" := Map(tools)] == data;
  }

  lemma PutTwice(data: map<string, Value>, a: seq<Value>, b: seq<Value>)
    requires Spawner(data)
    ensures PutIn(PutIn(data, ["tools", "agents"], List(a)), ["tools", "agents"], List(b))
            == PutIn(data, ["tools", "agents"], List(b))
  {
    AtTwo(Map(data), "tools", "agents");
    var tools := data["tools"].entries;
    assert ["tools", "agents"] == ["tools"] + ["agents"];
    PutKey(Map(data), "tools", ["agents"], List(a));
    PutKey(Map(data), "tools", ["agents"], List(b));
    SingleKeyPut(tools, "agents", List(a));
    SingleKeyPut(tools, "agents", List(b));
    var once := data["tools" := Map(tools["agents" := List(a)])];
    PutKey(Map(once), "tools", ["agents"], List(b));
    SingleKeyPut(tools["agents" := List(a)], "agents", List(b));
    hide At, Put;
    assert tools["agents" := List(a)]["agents" := List(b)] == tools["agents" := List(b)];
    assert once["tools" := Map(tools["agents" := List(b)])] == data["tools" := Map(tools["agents" := List(b)])];
  }

  lemma NoneRaised(data: map<string, Value>, t: real)
    ensures RaisedData(data, t, {}) == data
  {
    if Spawner(data) {
      var items := At(Map(data), ["tools", "agents"]).value.items;
      assert RaisedList(items, t, {}) == items;
      PutSelf(data);
    }
  }

  /** The agent list of a file with some entries raised. */
  lemma RaisedAgents(data: map<string, Value>, t: real, done: set<nat>)
    ensures AgentList(Map(RaisedData(data, t, done)))
            == if Spawner(data) then Some(RaisedList(AgentList(Map(data)).value, t, done)) else AgentList(Map(data))
  {
    AgentsOf(data);
    hide AgentList, PutIn, Spawner;
    if Spawner(data) {
      AgentsReplaced(data, RaisedList(AgentList(Map(data)).value, t, done));
    }
  }

  /** Raising one more entry. */
  lemma OneMoreRaised(data: map<string, Value>, t: real, done: set<nat>, i: nat)
    requires Spawner(data) && i < |AgentList(Map(data)).value|
    ensures var items := RaisedList(AgentList(Map(data)).value, t, done);
            i < |items|
            && PutIn(RaisedData(data, t, done), ["tools", "agents"], List(items[i := RaisedEntry(items[i], t)]))
               == RaisedData(data, t, done + {i})
  {
    AgentsOf(data);
    var list := AgentList(Map(data)).value;
    var items, more := RaisedList(list, t, done), RaisedList(list, t, done + {i});
    RaisedTwice(list[i], t);
    assert items[i := RaisedEntry(items[i], t)] == more;
    hide AgentList, PutIn, Spawner, RaisedList, RaisedEntry;
    PutTwice(data, items, more);
  }

  /** An entry that is high enough already. */
  lemma NothingRaised(data: map<string, Value>, t: real, done: set<nat>, i: nat)
    requires Spawner(data) && i < |AgentList(Map(data)).value|
    requires var items := RaisedList(AgentList(Map(data)).value, t, done); RaisedEntry(items[i], t) == items[i]
    ensures RaisedData(data, t, done + {i}) == RaisedData(data, t, done)
  {
    AgentsOf(data);
    var list := AgentList(Map(data)).value;
    RaisedTwice(list[i], t);
    assert RaisedList(list, t, done) == RaisedList(list, t, done + {i});
  }

  lemma FilesRaised(files: Files, t: real, done: set<(string, nat)>, p: string, i: nat)
    requires p in files
    ensures RaisedFiles(files, t, done + {(p, i)})
            == RaisedFiles(files, t, done)[p := RaisedFile(files[p], t, IndicesOf(done, p) + {i})]
  {
    assert IndicesOf(done + {(p, i)}, p) == IndicesOf(done, p) + {i};
    forall q | q in files && q != p ensures IndicesOf(done + {(p, i)}, q) == IndicesOf(done, q) {
    }
  }

  lemma NoneRaisedFiles(files: Files, t: real)
    ensures RaisedFiles(files, t, {}) == files
  {
    forall p | p in files && files[p].Map? ensures RaisedFile(files[p], t, IndicesOf({}, p)) == files[p] {
      assert IndicesOf({}, p) == {};
      NoneRaised(files[p].entries, t);
    }
  }

  // ---------------------------------------------------------------- the company on disk

  class Company {
    const fw: Framework
    const resolve: Resolver
    var files: Files

    constructor (fw: Framework, resolve: Resolver, files: Files)
      ensures this.fw == fw && this.resolve == resolve && this.files == files
    {
      this.fw := fw;
      this.resolve := resolve;
      this.files := files;
    }

    /** Applies one stage to each location but `skip`, and notes where something was written; `once` keeps
        a noted name from being noted again. `part` are the files the stage got to. */
    method RewriteNodes(locations: seq<Location>, skip: Option<string>, stage: Stage, k: Knobs, once: bool,
                        changed: seq<string>)
      returns (r: Result<seq<string>, ProbeError>, ghost part: set<string>)
      requires IsFramework(fw) && DistinctKeys(locations, PathKey()) && MapFiles(files, locations)
      modifies this`files
      ensures var edit, paths := EditorOf(fw, k, stage), PathsOf(locations) - (if skip.Some? then {skip.value} else {});
              && (r.Ok? <==> Doable(old(files), paths, edit))
              && part <= paths && files == Rewritten(old(files), part, edit)
              && (r.Ok? ==> part == paths)
              && (r.Ok? && Idle(old(files), paths, edit) ==> r.value == changed)
              && (r.Ok? && !Idle(old(files), paths, edit) ==> r.value != [])
              && (r.Ok? && changed != [] ==> r.value != [])
    {
      hide *;
      ghost var edit := EditorOf(fw, k, stage);
      ghost var before := files;
      ghost var skipped: set<string> := if skip.Some? then {skip.value} else {};
      var notes := changed;
      var index := 0;
      part := PathsOf(locations[..0]) - skipped;
      NothingRewritten(before, locations, skipped, edit);
      while index < |locations|
        invariant 0 <= index <= |locations|
        invariant part == PathsOf(locations[..index]) - skipped
        invariant files == Rewritten(before, PathsOf(locations[..index]) - skipped, edit)
        invariant Doable(before, PathsOf(locations[..index]) - skipped, edit)
        invariant Idle(before, PathsOf(locations[..index]) - skipped, edit) ==> notes == changed
        invariant !Idle(before, PathsOf(locations[..index]) - skipped, edit) ==> notes != []
        invariant changed != [] ==> notes != []
      {
        var location := locations[index];
        ghost var seen := PathsOf(locations[..index]) - skipped;
        MapFileAt(before, locations, index);
        OneMorePath(locations, index);
        if skip == Some(location.path) {
          assert PathsOf(locations[..index + 1]) - skipped == seen;
        } else {
          assert PathsOf(locations[..index + 1]) - skipped == seen + {location.path};
          Untouched(before, seen, edit, location.path);
          var done := EditNode(fw, k, stage, files[location.path].entries);
          if done.None? {
            NotDoable(before, locations, index, skipped, edit);
            PartOf(locations, index, skipped);
            r := Err(ProbeError);
            return;
          }
          OneMoreRewritten(before, seen, edit, location.path);
          OneMoreChecked(before, seen, edit, location.path);
          match done.value {
            case Keep =>
              KeepsFile(before, seen, edit, location.path);
            case Write(data) =>
              WritesFile(before, edit, location.path, data);
              files := files[location.path := Map(data)];
              notes := if once then MarkChanged(notes, location.org) else notes + [location.org];
          }
        }
        index := index + 1;
        part := PathsOf(locations[..index]) - skipped;
      }
      assert locations[..index] == locations;
      r := Ok(notes);
    }

    /** Raises the timeout of one delegation in its parent's file, if the effective one is lower. `done` are
        the entries looked at before. */
    method RaiseEdge(edge: Edge, t: real, notes: seq<string>, ghost before: Files, ghost done: set<(string, nat)>)
      returns (r: Option<seq<string>>)
      requires IsFramework(fw) && files == RaisedFiles(before, t, done)
      requires EdgeFits(before, edge)
      modifies this`files
      ensures Loads(fw, old(files), edge.parent) ==> r.Some?
      ensures r.None? ==> files == old(files)
      ensures r.Some? ==> files == RaisedFiles(before, t, done + {(edge.parent, edge.index)})
      ensures r.Some? ==> Loads(fw, files, edge.parent)
      ensures r.Some? && notes != [] ==> r.value != []
      ensures r.Some? && r.value == [] ==> files == old(files)
      ensures r.Some? && EntryMet(before, edge, t) ==> r.value == notes
    {
      var parent := files[edge.parent].entries;
      ghost var data, indices := before[edge.parent].entries, IndicesOf(done, edge.parent);
      assert parent == RaisedData(data, t, indices);
      var e := Effective(fw, parent);
      if e.None? {
        return None;
      }
      CurrentList(data, t, indices);
      EffectiveAgents(fw, parent);
      FilesRaised(before, t, done, edge.parent, edge.index);
      hide Effective, IsFramework, AgentList, PutIn, At, Spawner, RaisedFiles, RaisedData, RaisedList, RaisedEntry;
      var agents := At(e.value, ["tools", "agents"]).value.items;
      var raised := RaisedEntry(agents[edge.index], t);
      EntryOf(before, edge, t, indices);
      if raised == agents[edge.index] {
        NothingRaised(data, t, indices, edge.index);
        SameFile(files, edge.parent);
        r := Some(notes);
      } else {
        OneMoreRaised(data, t, indices, edge.index);
        var items := AgentList(Map(parent)).value;
        assert ["tools", "agents"] in TUNABLE;
        EffectivePut(fw, parent, ["tools", "agents"], List(items[edge.index := raised]));
        files := files[edge.parent := Map(PutIn(parent, ["tools", "agents"], List(items[edge.index := raised])))];
        r := Some(MarkChanged(notes, edge.childOrg));
      }
    }

    /** Raises the timeouts of the delegations to one config; `reached` are all entries looked at so far. */
    method RaiseInto(list: seq<Edge>, t: real, changed: seq<string>, ghost before: Files,
                     ghost done: set<(string, nat)>)
      returns (r: Option<seq<string>>, ghost reached: set<(string, nat)>)
      requires IsFramework(fw) && files == RaisedFiles(before, t, done) && AllLoad(fw, files, done)
      requires forall e :: e in list ==> EdgeFits(before, e)
      modifies this`files
      ensures (forall e :: e in list ==> Loads(fw, before, e.parent)) ==> r.Some?
      ensures files == RaisedFiles(before, t, reached) && reached <= done + PairsOf(list)
      ensures r.Some? ==> reached == done + PairsOf(list)
      ensures r.Some? ==> AllLoad(fw, files, done + PairsOf(list))
      ensures r.Some? && changed != [] ==> r.value != []
      ensures r.Some? && r.value == [] ==> files == old(files)
      ensures r.Some? && (forall e :: e in list ==> EntryMet(before, e, t)) ==> r.value == changed
    {
      hide *;
      var notes := changed;
      var index := 0;
      NoPairs(list);
      assert done + {} == done;
      reached := done;
      while index < |list|
        invariant 0 <= index <= |list|
        invariant reached == done + PairsOf(list[..index])
        invariant files == RaisedFiles(before, t, reached)
        invariant AllLoad(fw, files, done + PairsOf(list[..index]))
        invariant changed != [] ==> notes != []
        invariant notes == [] ==> files == old(files)
        invariant (forall e :: e in list ==> EntryMet(before, e, t)) ==> notes == changed
      {
        var edge := list[index];
        ghost var now, seen := files, done + PairsOf(list[..index]);
        assert edge in list;
        FitsIn(before, edge);
        FilesRaised(before, t, seen, edge.parent, edge.index);
        MorePairs(list, index, done);
        if Loads(fw, before, edge.parent) {
          StillLoads(fw, before, t, seen, edge.parent);
        }
        var noted := RaiseEdge(edge, t, notes, before, seen);
        if noted.None? {
          FirstPairs(list, index);
          r := None;
          return;
        }
        ReplacedOnly(before, t, seen, edge.parent, edge.index);
        OneMoreLoads(fw, now, files, seen, seen + {(edge.parent, edge.index)}, edge.parent, edge.index);
        notes := noted.value;
        index := index + 1;
        reached := done + PairsOf(list[..index]);
      }
      assert list[..index] == list;
      r := Some(notes);
    }

    /** Raises the timeout of every delegation below `t`, in the files of the delegating configs; `reached`
        are the entries looked at. It succeeds exactly when all those configs load. */
    method RaiseTimeouts(root: string, t: real, changed: seq<string>)
      returns (r: Result<seq<string>, ProbeError>, ghost reached: set<(string, nat)>)
      requires IsFramework(fw) && AllReadable(files, Walk(files, resolve, true, root), true)
      modifies this`files
      ensures var before, edges := old(files), Edges(old(files), resolve, root);
              && (r.Ok? <==> ParentsLoad(fw, before, resolve, root))
              && files == RaisedFiles(before, t, reached) && reached <= PairsOf(edges)
              && (r.Ok? ==> reached == PairsOf(edges))
              && (r.Ok? ==> forall e :: e in edges ==> Loads(fw, files, e.parent))
              && (r.Ok? && r.value == [] ==> files == before)
              && (r.Ok? && changed != [] ==> r.value != [])
              && (r.Ok? && AllMet(before, edges, t) ==> r.value == changed)
    {
      hide *;
      ghost var before, edges := files, Edges(files, resolve, root);
      WalksAgree(files, resolve, root);
      EdgesIs(files, resolve, root);
      EdgesAllFit(files, resolve, root);
      NoneRaisedFiles(files, t);
      var filed := DelegationEdgesByChild(files, resolve, root);
      var byChild := filed.value;
      var notes := changed;
      ghost var done: set<(string, nat)> := {};
      reached := {};
      ParentsLoadIs(fw, files, resolve, root);
      NoneLoad(fw, files);
      var todo := byChild.Keys;
      while todo != {}
        invariant todo <= byChild.Keys
        invariant reached == done && files == RaisedFiles(before, t, done)
        invariant done <= PairsOf(edges)
        invariant forall e :: e in edges && e.child in byChild && e.child !in todo ==> (e.parent, e.index) in done
        invariant AllLoad(fw, files, done)
        invariant notes == [] ==> files == before
        invariant changed != [] ==> notes != []
        invariant AllMet(before, edges, t) ==> notes == changed
        decreases |todo|
      {
        var child :| child in todo;
        FiledUnder(byChild, edges, child);
        ghost var list := byChild[child];
        PairsWithin(list, edges);
        if AllMet(before, edges, t) {
          ListMet(before, edges, list, t);
        }
        var raised;
        raised, reached := RaiseInto(byChild[child], t, notes, before, done);
        if raised.None? {
          r := Err(ProbeError);
          return;
        }
        forall e | e in edges && e.child in byChild && e.child !in todo - {child}
          ensures (e.parent, e.index) in done + PairsOf(list)
        {
          if e.child == child {
            PairOf(list, e);
          }
        }
        done := done + PairsOf(list);
        notes := raised.value;
        todo := todo - {child};
      }
      AllDone(byChild, edges, done);
      EdgesLoad(fw, files, edges, done);
      forall e | e in edges ensures Loads(fw, before, e.parent) {
        LoadedBefore(fw, before, t, done, e.parent);
      }
      r := Ok(notes);
    }

    /** One stage: discovers the configs, and edits all of them or all but the root. */
    method RunStage(root: string, skipRoot: bool, stage: Stage, k: Knobs, once: bool, changed: seq<string>)
      returns (r: Result<seq<string>, ProbeError>)
      requires IsFramework(fw) && (skipRoot || stage == SpawnStage)
      modifies this`files
      ensures var before, edit := old(files), EditorOf(fw, k, stage);
              var paths := StagePaths(before, resolve, root, skipRoot);
              && (r.Ok? <==> Found(before, resolve, root) && Doable(before, paths, edit))
              && (r.Ok? ==> files == Rewritten(before, paths, edit))
              && (r.Ok? && Idle(before, paths, edit) ==> r.value == changed)
              && (r.Ok? && r.value == [] ==> changed == [] && Idle(before, paths, edit))
              && (!Found(before, resolve, root) ==> files == before)
              && Spared(before, files, StagePaths(before, resolve, root, false), root)
    {
      hide *;
      StagePathsIs(files, resolve, root, skipRoot);
      StagePathsIs(files, resolve, root, false);
      FoundIs(files, resolve, root);
      SparedSelf(files, StagePaths(files, resolve, root, false), root);
      var found := Discover(files, resolve, root);
      if found.Err? {
        return Err(found.error);
      }
      WalkExact(files, resolve, true, root);
      ReadableIsMap(files, found.value);
      ghost var part;
      r, part := RewriteNodes(found.value, if skipRoot then Some(root) else None, stage, k, once, changed);
      StageSpares(fw, k, stage, old(files), part, StagePaths(old(files), resolve, root, false), root);
    }

    /** Applies a bounded candidate: tokens, then the other knobs of each delegated node, then spawn limits,
        then delegation timeouts. Whether it succeeds or not, it writes nowhere else. */
    method ApplyCandidate(root: string, k: Knobs) returns (r: Result<seq<string>, ProbeError>)
      requires IsFramework(fw)
      modifies this`files
      ensures r.Ok? <==> Applicable(fw, resolve, root, k, old(files))
      ensures r.Ok? ==> files == Applied(fw, resolve, root, k, old(files))
      ensures r.Ok? ==> Quiet(fw, resolve, root, k, files)
      ensures r.Ok? && r.value == [] ==> files == old(files)
      ensures Quiet(fw, resolve, root, k, old(files)) ==> r == Ok([]) && files == old(files)
      ensures Spared(old(files), files, StagePaths(old(files), resolve, root, false), root)
      ensures !Bounded(k) || !Found(old(files), resolve, root) ==> files == old(files)
    {
      hide *;
      ghost var f0 := files;
      ghost var some, all := StagePaths(f0, resolve, root, true), StagePaths(f0, resolve, root, false);
      SparedSelf(f0, all, root);
      ApplicableIs(fw, resolve, root, k, f0);
      if !Bounded(k) {
        NotQuiet(fw, resolve, root, k, files);
        return Err(ProbeError);
      }
      ghost var quiet := Quiet(fw, resolve, root, k, f0);
      if quiet {
        QuietIdle(fw, resolve, root, k, f0);
        ParentsLoadIs(fw, f0, resolve, root);
      }
      if Found(f0, resolve, root) {
        StagesAgree(fw, resolve, root, k, f0);
      }
      StageFiles(fw, resolve, root, k, f0);
      Editors(fw, k);
      NoFloor(fw, k, f0, some);
      StageQuiet(f0, some, FloorEditor(fw, k));
      var changed: seq<string> := [];
      if k.tokenFloor.Some? {
        var floored := RunStage(root, true, FloorStage, k, false, changed);
        if floored.Err? {
          return floored;
        }
        changed := floored.value;
      }
      ghost var f1 := files;
      assert f1 == Floored(fw, resolve, root, k, f0) && Doable(f0, some, FloorEditor(fw, k));
      assert Spared(f0, f1, all, root);
      StageQuiet(f1, some, TuneEditor(fw, k));
      var tuned := RunStage(root, true, TuneStage, k, true, changed);
      SparedOn(f0, f1, files, all, root);
      if tuned.Err? {
        return tuned;
      }
      changed := tuned.value;
      ghost var f2 := files;
      assert Found(f0, resolve, root);
      assert f2 == TunedFiles(fw, resolve, root, k, f0) && Doable(f1, some, TuneEditor(fw, k));
      NoSpawns(fw, k, f2, all);
      StageQuiet(f2, all, SpawnEditor(fw, k));
      if k.maxSpawns.Some? {
        var limited := RunStage(root, false, SpawnStage, k, true, changed);
        SparedOn(f0, f2, files, all, root);
        if limited.Err? {
          return limited;
        }
        changed := limited.value;
      }
      ghost var f3 := files;
      assert f3 == Limited(fw, resolve, root, k, f0) && Doable(f2, all, SpawnEditor(fw, k));
      FoundIs(f3, resolve, root);
      if k.timeout.Some? {
        ghost var reached;
        var raised;
        raised, reached := RaiseTimeouts(root, k.timeout.value, changed);
        RaisingSpares(f3, resolve, root, k.timeout.value, reached);
        SparedOn(f0, f3, files, all, root);
        if raised.Err? {
          return raised;
        }
        changed := raised.value;
      }
      assert files == Applied(fw, resolve, root, k, f0);
      RanAll(fw, resolve, root, k, f0);
      QuietAfter(fw, resolve, root, k, f0);
      r := Ok(changed);
    }

    /** Applying the candidate again reports no change and writes nothing. */
    method ApplyTwice(root: string, k: Knobs)
      returns (first: Result<seq<string>, ProbeError>, second: Result<seq<string>, ProbeError>)
      requires IsFramework(fw)
      modifies this`files
      ensures first.Ok? <==> Applicable(fw, resolve, root, k, old(files))
      ensures first.Ok? ==> second == Ok([]) && files == Applied(fw, resolve, root, k, old(files))
    {
      hide *;
      first := ApplyCandidate(root, k);
      second := ApplyCandidate(root, k);
    }
  }

  predicate AllMet(files: Files, edges: seq<Edge>, t: real) {
    forall e :: e in edges ==> EdgeFits(files, e) && EntryMet(files, e, t)
  }

  lemma ListMet(files: Files, edges: seq<Edge>, list: seq<Edge>, t: real)
    requires AllMet(files, edges, t) && forall e :: e in list ==> e in edges
    ensures forall e :: e in list ==> EdgeFits(files, e) && EntryMet(files, e, t)
  {
    hide EdgeFits, EntryMet;
  }

  lemma NoPairs(list: seq<Edge>)
    ensures PairsOf(list[..0]) == {}
  {
  }

  lemma FirstPairs(list: seq<Edge>, i: nat)
    requires i <= |list|
    ensures PairsOf(list[..i]) <= PairsOf(list)
  {
  }

  lemma MorePairs(list: seq<Edge>, i: nat, done: set<(string, nat)>)
    requires i < |list|
    ensures done + PairsOf(list[..i + 1]) == done + PairsOf(list[..i]) + {(list[i].parent, list[i].index)}
  {
    assert list[..i + 1] == list[..i] + [list[i]];
  }

  lemma PairsWithin(list: seq<Edge>, edges: seq<Edge>)
    requires forall e :: e in list ==> e in edges
    ensures PairsOf(list) <= PairsOf(edges)
  {
  }

  lemma NoneLoad(fw: Framework, files: Files)
    ensures AllLoad(fw, files, {})
  {
  }

  lemma ReplacedOnly(files: Files, t: real, done: set<(string, nat)>, p: string, i: nat)
    requires p in files
    ensures p in RaisedFiles(files, t, done + {(p, i)})
    ensures RaisedFiles(files, t, done + {(p, i)})
            == RaisedFiles(files, t, done)[p := RaisedFiles(files, t, done + {(p, i)})[p]]
  {
    FilesRaised(files, t, done, p, i);
  }

  lemma EdgesIs(files: Files, resolve: Resolver, root: string)
    ensures Edges(files, resolve, root) == AllEdges(files, resolve, Walk(files, resolve, false, root))
  {
  }

  /** The edges out of every discovered config. */
  ghost function Edges(files: Files, resolve: Resolver, root: string): seq<Edge> {
    AllEdges(files, resolve, Walk(files, resolve, false, root))
  }

  predicate Loads(fw: Framework, files: Files, p: string) {
    p in files && files[p].Map? && Effective(fw, files[p].entries).Some?
  }

  predicate AllLoad(fw: Framework, files: Files, done: set<(string, nat)>) {
    forall e :: e in done ==> Loads(fw, files, e.0)
  }

  lemma FitsIn(files: Files, edge: Edge)
    requires EdgeFits(files, edge)
    ensures edge.parent in files && files[edge.parent].Map?
  {
  }

  lemma StillLoads(fw: Framework, before: Files, t: real, done: set<(string, nat)>, p: string)
    requires IsFramework(fw) && Loads(fw, before, p)
    ensures Loads(fw, RaisedFiles(before, t, done), p)
  {
    hide Effective, IsFramework, RaisedData;
    RaisedOutcome(fw, before[p].entries, t, IndicesOf(done, p));
  }

  /** A file that loads with raised timeouts loaded with the old ones. */
  lemma LoadedBefore(fw: Framework, before: Files, t: real, done: set<(string, nat)>, p: string)
    requires IsFramework(fw) && Loads(fw, RaisedFiles(before, t, done), p)
    ensures Loads(fw, before, p)
  {
    hide Effective, IsFramework, RaisedData;
    EffectiveUnraised(fw, before[p].entries, t, IndicesOf(done, p));
  }

  lemma EffectiveUnraised(fw: Framework, data: map<string, Value>, t: real, done: set<nat>)
    requires IsFramework(fw) && Effective(fw, RaisedData(data, t, done)).Some?
    ensures Effective(fw, data).Some?
  {
    hide Effective, IsFramework, Put, Spawner, At, PutIn;
    if Spawner(data) {
      SpawnerList(data);
      PutSelf(data);
      var items := At(Map(data), ["tools", "agents"]).value.items;
      PutTwice(data, RaisedList(items, t, done), items);
      assert ["tools", "agents"] in TUNABLE;
      EffectivePut(fw, RaisedData(data, t, done), ["tools", "agents"], List(items));
    }
  }

  lemma ParentsLoadIs(fw: Framework, files: Files, resolve: Resolver, root: string)
    ensures ParentsLoad(fw, files, resolve, root)
            <==> forall e :: e in Edges(files, resolve, root) ==> Loads(fw, files, e.parent)
  {
  }

  lemma OneMoreLoads(fw: Framework, now: Files, after: Files, done: set<(string, nat)>, done': set<(string, nat)>,
                     p: string, i: nat)
    requires AllLoad(fw, now, done) && done' == done + {(p, i)}
    requires p in after && after == now[p := after[p]] && Loads(fw, after, p)
    ensures AllLoad(fw, after, done')
  {
    hide Effective;
  }

  lemma PairOf(edges: seq<Edge>, e: Edge)
    requires e in edges
    ensures (e.parent, e.index) in PairsOf(edges)
  {
  }

  lemma FiledUnder(m: map<string, seq<Edge>>, edges: seq<Edge>, child: string)
    requires Grouped(m, edges) && child in m
    ensures forall e :: e in m[child] ==> e in edges
    ensures forall e :: e in edges && e.child == child ==> e in m[child]
  {
    assert m[child] == Into(edges, child);
    forall e: Edge ensures e in Into(edges, child) <==> e in edges && e.child == child {
      IntoMember(edges, child, e);
    }
  }

  lemma AllDone(m: map<string, seq<Edge>>, edges: seq<Edge>, done: set<(string, nat)>)
    requires Grouped(m, edges) && done <= PairsOf(edges)
    requires forall e :: e in edges && e.child in m ==> (e.parent, e.index) in done
    ensures done == PairsOf(edges)
  {
    forall e | e in edges ensures (e.parent, e.index) in done {
      IntoMember(edges, e.child, e);
      assert (if e.child in m then m[e.child] else []) == Into(edges, e.child);
    }
  }

  lemma EdgesLoad(fw: Framework, files: Files, edges: seq<Edge>, done: set<(string, nat)>)
    requires AllLoad(fw, files, done) && done == PairsOf(edges)
    ensures forall e :: e in edges ==> Loads(fw, files, e.parent)
  {
    hide Loads;
    forall e | e in edges ensures Loads(fw, files, e.parent) {
      PairOf(edges, e);
      assert Loads(fw, files, (e.parent, e.index).0);
    }
  }

  lemma EdgesAllFit(files: Files, resolve: Resolver, root: string)
    requires AllReadable(files, Walk(files, resolve, true, root), true)
    ensures forall e :: e in Edges(files, resolve, root) ==> EdgeFits(files, e)
  {
    WalksAgree(files, resolve, root);
    var walk := Walk(files, resolve, false, root);
    forall e | e in Edges(files, resolve, root) ensures EdgeFits(files, e) {
      AllEdgesMember(files, resolve, walk, e);
      var l :| l in walk && e in EdgesAt(files, resolve, l);
      EntryFits(files, resolve, l, e);
    }
  }

  lemma EntryFits(files: Files, resolve: Resolver, l: Location, e: Edge)
    requires e in EdgesAt(files, resolve, l)
    ensures EdgeFits(files, e) && e.parent == l.path
  {
    var refs := Delegates(files, l.path, false).value;
    var i :| 0 <= i < |refs| && EdgesFrom(resolve, l, refs)[i] == e;
    RefsLength(AgentList(files[l.path]).value);
    assert files[l.path] == Map(files[l.path].entries);
    AgentsOf(files[l.path].entries);
  }

  lemma SameFile(files: Files, p: string)
    requires p in files && files[p].Map?
    ensures files[p := Map(files[p].entries)] == files
  {
  }

  /** The edge comes from a list entry of its parent's file. */
  predicate EdgeFits(files: Files, edge: Edge) {
    && edge.parent in files && files[edge.parent].Map?
    && Spawner(files[edge.parent].entries)
    && AgentList(files[edge.parent]).Some?
    && edge.index < |AgentList(files[edge.parent]).value|
  }

  /** The entry's timeout is high enough. */
  predicate EntryMet(files: Files, edge: Edge, t: real)
    requires EdgeFits(files, edge)
  {
    var entry := AgentList(files[edge.parent]).value[edge.index];
    RaisedEntry(entry, t) == entry
  }

  lemma CurrentList(data: map<string, Value>, t: real, done: set<nat>)
    requires Spawner(data)
    ensures Spawner(RaisedData(data, t, done))
    ensures At(Map(RaisedData(data, t, done)), ["tools", "agents"])
            == Some(List(RaisedList(AgentList(Map(data)).value, t, done)))
    ensures AgentList(Map(RaisedData(data, t, done))) == Some(RaisedList(AgentList(Map(data)).value, t, done))
  {
    AgentsOf(data);
    RaisedAgents(data, t, done);
    AgentsOf(RaisedData(data, t, done));
    hide Spawner, AgentList, At, RaisedData;
  }

  lemma EffectiveAgents(fw: Framework, data: map<string, Value>)
    requires IsFramework(fw) && Effective(fw, data).Some? && Spawner(data)
    ensures At(Effective(fw, data).value, ["tools", "agents"]) == At(Map(data), ["tools", "agents"])
  {
    SpawnerList(data);
    LeafLoaded(fw, data, ["tools", "agents"]);
  }

  lemma EntryOf(before: Files, edge: Edge, t: real, done: set<nat>)
    requires EdgeFits(before, edge)
    ensures var entry := RaisedList(AgentList(before[edge.parent]).value, t, done)[edge.index];
            EntryMet(before, edge, t) ==> RaisedEntry(entry, t) == entry
  {
    RaisedTwice(AgentList(before[edge.parent]).value[edge.index], t);
    hide AgentList, RaisedEntry;
  }

  lemma NothingRewritten(before: Files, locations: seq<Location>, skipped: set<string>, edit: Editor)
    ensures Rewritten(before, PathsOf(locations[..0]) - skipped, edit) == before
    ensures Idle(before, PathsOf(locations[..0]) - skipped, edit)
    ensures Doable(before, PathsOf(locations[..0]) - skipped, edit)
  {
    assert PathsOf(locations[..0]) - skipped == {};
    assert Rewritten(before, {}, edit) == before;
  }

  lemma PartOf(locations: seq<Location>, i: nat, skipped: set<string>)
    requires i <= |locations|
    ensures PathsOf(locations[..i]) - skipped <= PathsOf(locations) - skipped
  {
  }

  lemma MapFileAt(files: Files, locations: seq<Location>, i: nat)
    requires MapFiles(files, locations) && i < |locations|
    ensures locations[i].path in files && files[locations[i].path].Map?
  {
    assert locations[i] in locations;
  }

  lemma WritesFile(before: Files, edit: Editor, p: string, data: map<string, Value>)
    requires p in before && before[p].Map? && edit(before[p].entries) == Some(Write(data))
    ensures Edited(edit, before[p]) == Map(data)
  {
  }

  lemma Untouched(before: Files, paths: set<string>, edit: Editor, p: string)
    requires p in before && p !in paths
    ensures p in Rewritten(before, paths, edit) && Rewritten(before, paths, edit)[p] == before[p]
  {
  }

  lemma KeepsFile(before: Files, paths: set<string>, edit: Editor, p: string)
    requires p in before && p !in paths && before[p].Map? && edit(before[p].entries) == Some(Keep)
    ensures Rewritten(before, paths, edit)[p := Edited(edit, before[p])] == Rewritten(before, paths, edit)
  {
  }

  lemma OneMoreChecked(before: Files, paths: set<string>, edit: Editor, p: string)
    requires p in before && before[p].Map?
    ensures Doable(before, paths + {p}, edit) <==> Doable(before, paths, edit) && edit(before[p].entries).Some?
    ensures Idle(before, paths + {p}, edit) <==> Idle(before, paths, edit) && edit(before[p].entries) == Some(Keep)
  {
  }

  lemma NotDoable(before: Files, locations: seq<Location>, i: nat, skipped: set<string>, edit: Editor)
    requires i < |locations| && locations[i].path !in skipped && locations[i].path in before
    requires before[locations[i].path].Map? && edit(before[locations[i].path].entries).None?
    ensures !Doable(before, PathsOf(locations) - skipped, edit)
  {
    assert locations[i] in locations;
    assert locations[i].path in PathsOf(locations) - skipped;
  }

  // ---------------------------------------------------------------- the whole run

  ghost function StagePaths(files: Files, resolve: Resolver, root: string, skipRoot: bool): set<string> {
    PathsOf(Walk(files, resolve, true, root)) - (if skipRoot then {root} else {})
  }

  lemma StagePathsIs(files: Files, resolve: Resolver, root: string, skipRoot: bool)
    ensures var skip := if skipRoot then Some(root) else None;
            StagePaths(files, resolve, root, skipRoot)
            == PathsOf(Walk(files, resolve, true, root)) - (if skip.Some? then {skip.value} else {})
  {
  }

  /** The files after each stage. */
  ghost function Floored(fw: Framework, resolve: Resolver, root: string, k: Knobs, files: Files): Files {
    Rewritten(files, StagePaths(files, resolve, root, true), FloorEditor(fw, k))
  }

  ghost function TunedFiles(fw: Framework, resolve: Resolver, root: string, k: Knobs, files: Files): Files {
    Rewritten(Floored(fw, resolve, root, k, files), StagePaths(files, resolve, root, true), TuneEditor(fw, k))
  }

  ghost function Limited(fw: Framework, resolve: Resolver, root: string, k: Knobs, files: Files): Files {
    Rewritten(TunedFiles(fw, resolve, root, k, files), StagePaths(files, resolve, root, false), SpawnEditor(fw, k))
  }

  ghost function Applied(fw: Framework, resolve: Resolver, root: string, k: Knobs, files: Files): Files {
    var limited := Limited(fw, resolve, root, k, files);
    if k.timeout.None? then limited
    else RaisedFiles(limited, k.timeout.value, PairsOf(Edges(limited, resolve, root)))
  }

  ghost predicate Found(files: Files, resolve: Resolver, root: string) {
    AllReadable(files, Walk(files, resolve, true, root), true)
  }

  ghost predicate ParentsLoad(fw: Framework, files: Files, resolve: Resolver, root: string) {
    forall e :: e in Edges(files, resolve, root) ==> Loads(fw, files, e.parent)
  }

  /** Nothing is left for the candidate to do. */
  ghost predicate Quiet(fw: Framework, resolve: Resolver, root: string, k: Knobs, files: Files) {
    && Bounded(k)
    && Found(files, resolve, root)
    && Idle(files, StagePaths(files, resolve, root, true), FloorEditor(fw, k))
    && Idle(files, StagePaths(files, resolve, root, true), TuneEditor(fw, k))
    && Idle(files, StagePaths(files, resolve, root, false), SpawnEditor(fw, k))
    && (k.timeout.Some? ==> AllMet(files, Edges(files, resolve, root), k.timeout.value)
                            && ParentsLoad(fw, files, resolve, root))
  }

  /** When a candidate can be applied: it keeps its bounds, discovery succeeds, each stage can be carried
      out, and for timeouts every delegating config loads. */
  ghost predicate Applicable(fw: Framework, resolve: Resolver, root: string, k: Knobs, files: Files) {
    && Bounded(k)
    && Found(files, resolve, root)
    && StagesRan(fw, resolve, root, k, files)
    && (k.timeout.Some? ==> ParentsLoad(fw, Limited(fw, resolve, root, k, files), resolve, root))
  }

  lemma ApplicableIs(fw: Framework, resolve: Resolver, root: string, k: Knobs, files: Files)
    ensures Applicable(fw, resolve, root, k, files)
            <==> && Bounded(k)
                 && Found(files, resolve, root)
                 && Doable(files, StagePaths(files, resolve, root, true), FloorEditor(fw, k))
                 && Doable(Floored(fw, resolve, root, k, files), StagePaths(files, resolve, root, true),
                           TuneEditor(fw, k))
                 && Doable(TunedFiles(fw, resolve, root, k, files), StagePaths(files, resolve, root, false),
                           SpawnEditor(fw, k))
                 && (k.timeout.Some? ==> ParentsLoad(fw, Limited(fw, resolve, root, k, files), resolve, root))
  {
    hide Bounded, Found, Doable, StagePaths, FloorEditor, TuneEditor, SpawnEditor, Floored, TunedFiles, Limited,
         ParentsLoad;
  }

  // ---------------------------------------------------------------- what no stage writes

  /** The sections other than tools are the same. */
  ghost predicate SameButTools(a: map<string, Value>, b: map<string, Value>) {
    forall name: string :: name != "tools" ==> (name in a <==> name in b) && Get(a, name) == Get(b, name)
  }

  /** The files outside `paths` are the same, and the root's are but for its tools. */
  ghost predicate Spared(before: Files, after: Files, paths: set<string>, root: string) {
    && after.Keys == before.Keys
    && (forall p :: p in before && p !in paths ==> after[p] == before[p])
    && (root in before && before[root].Map?
        ==> after[root].Map? && SameButTools(before[root].entries, after[root].entries))
  }

  lemma SparedSelf(files: Files, paths: set<string>, root: string)
    ensures Spared(files, files, paths, root)
  {
  }

  lemma SparedOn(a: Files, b: Files, c: Files, paths: set<string>, root: string)
    requires Spared(a, b, paths, root) && Spared(b, c, paths, root)
    ensures Spared(a, c, paths, root)
  {
  }

  lemma SpawnSpares(fw: Framework, k: Knobs, data: map<string, Value>)
    ensures SameButTools(data, Outcome(SpawnEdit(fw, k, data), data))
  {
    hide Effective, ViewOf, PutIn, Spawner;
    if k.maxSpawns.Some? {
      forall name: string | name != "tools"
        ensures var after := PutIn(data, ["tools", "max_parallel_spawns"], Int(k.maxSpawns.value));
                Get(after, name) == Get(data, name) && (name in after <==> name in data)
      {
        OnlySection(data, ["tools", "max_parallel_spawns"], Int(k.maxSpawns.value), name);
      }
    }
  }

  /** A stage that skips the root, or the spawn stage, however far it got. */
  lemma StageSpares(fw: Framework, k: Knobs, stage: Stage, files: Files, part: set<string>, paths: set<string>,
                    root: string)
    requires part <= paths && (root !in part || stage == SpawnStage)
    ensures Spared(files, Rewritten(files, part, EditorOf(fw, k, stage)), paths, root)
  {
    hide FloorEdit, TuneEdit, SpawnEdit, SameButTools;
    if root in files && files[root].Map? {
      SpawnSpares(fw, k, files[root].entries);
      SameSections(files[root].entries);
    }
  }

  lemma SameSections(data: map<string, Value>)
    ensures SameButTools(data, data)
  {
  }

  lemma RaisedSpares(data: map<string, Value>, t: real, done: set<nat>)
    ensures SameButTools(data, RaisedData(data, t, done))
  {
    hide PutIn, Spawner;
    if Spawner(data) {
      SpawnerList(data);
      var x := List(RaisedList(At(Map(data), ["tools", "agents"]).value.items, t, done));
      forall name: string | name != "tools"
        ensures var after := PutIn(data, ["tools", "agents"], x);
                Get(after, name) == Get(data, name) && (name in after <==> name in data)
      {
        OnlySection(data, ["tools", "agents"], x, name);
      }
    }
  }

  /** Raising the timeouts of edges of the walk, however far it got. */
  lemma RaisingSpares(files: Files, resolve: Resolver, root: string, t: real, done: set<(string, nat)>)
    requires Found(files, resolve, root) && done <= PairsOf(Edges(files, resolve, root))
    ensures Spared(files, RaisedFiles(files, t, done), StagePaths(files, resolve, root, false), root)
  {
    hide Found, StagePaths, Edges, SameButTools, RaisedData;
    if root in files && files[root].Map? {
      RaisedSpares(files[root].entries, t, IndicesOf(done, root));
    }
    forall p | p in files && p !in StagePaths(files, resolve, root, false)
      ensures RaisedFiles(files, t, done)[p] == files[p]
    {
      NoEdgesOut(files, resolve, root, p);
      assert IndicesOf(done, p) == {};
      if files[p].Map? {
        NoneRaised(files[p].entries, t);
      }
    }
  }

  // ---------------------------------------------------------------- no stage changes the walk

  ghost predicate KeepsAgents(edit: Editor) {
    forall data: map<string, Value> :: AgentList(Map(Outcome(edit(data), data))) == AgentList(Map(data))
  }

  lemma EditorsKeepAgents(fw: Framework, k: Knobs)
    ensures KeepsAgents(FloorEditor(fw, k)) && KeepsAgents(TuneEditor(fw, k)) && KeepsAgents(SpawnEditor(fw, k))
  {
    hide FloorEdit, TuneEdit, SpawnEdit, AgentList;
    forall data: map<string, Value>
      ensures AgentList(Map(Outcome(FloorEdit(fw, k, data), data))) == AgentList(Map(data))
      ensures AgentList(Map(Outcome(TuneEdit(fw, k, data), data))) == AgentList(Map(data))
      ensures AgentList(Map(Outcome(SpawnEdit(fw, k, data), data))) == AgentList(Map(data))
    {
      FloorKeeps(fw, k, data);
      TuneKeeps(fw, k, data);
      SpawnKeeps(fw, k, data);
    }
  }

  lemma RewrittenWalk(files: Files, resolve: Resolver, root: string, paths: set<string>, edit: Editor)
    requires KeepsAgents(edit) && Found(files, resolve, root)
    ensures Walk(Rewritten(files, paths, edit), resolve, true, root) == Walk(files, resolve, true, root)
    ensures Found(Rewritten(files, paths, edit), resolve, root)
  {
    var files' := Rewritten(files, paths, edit);
    forall l | l in Walk(files, resolve, true, root)
      ensures SameLeads(files, files', l.path)
    {
      RewrittenAgents(files, paths, edit, l.path);
      SameAgentsSameLeads(files, files', l.path);
    }
    hide *;
    FoundIs(files, resolve, root);
    FoundIs(files', resolve, root);
    WalkKept(files, files', resolve, root);
  }

  lemma FoundIs(files: Files, resolve: Resolver, root: string)
    ensures Found(files, resolve, root) <==> AllReadable(files, Walk(files, resolve, true, root), true)
  {
  }

  lemma RewrittenAgents(files: Files, paths: set<string>, edit: Editor, p: string)
    requires KeepsAgents(edit)
    ensures p in files ==>
              p in Rewritten(files, paths, edit)
              && AgentList(Rewritten(files, paths, edit)[p]) == AgentList(files[p])
  {
    hide AgentList, Outcome;
    if p in files && files[p].Map? {
      var data := files[p].entries;
      assert files[p] == Map(data);
      assert AgentList(Map(Outcome(edit(data), data))) == AgentList(Map(data));
    }
  }

  lemma RaisedLeads(files: Files, t: real, done: set<(string, nat)>, p: string)
    ensures SameLeads(files, RaisedFiles(files, t, done), p)
  {
    var files' := RaisedFiles(files, t, done);
    if Readable(files, p, true) {
      var data := files[p].entries;
      assert files[p] == Map(data);
      AgentsOf(data);
      RaisedAgents(data, t, IndicesOf(done, p));
      RaisedRefs(AgentList(files[p]).value, t, IndicesOf(done, p));
      hide AgentList, Refs, RaisedData, Spawner, RaisedList, Timed, SameRefs;
      if !Spawner(data) {
        SameRefsSelf(Refs(AgentList(files[p]).value).value);
      }
    }
  }

  lemma SameRefsSelf(refs: seq<AgentRef>)
    ensures SameRefs(refs, refs)
  {
  }

  lemma RaisedWalk(files: Files, resolve: Resolver, root: string, t: real, done: set<(string, nat)>)
    requires Found(files, resolve, root)
    ensures Walk(RaisedFiles(files, t, done), resolve, true, root) == Walk(files, resolve, true, root)
    ensures Found(RaisedFiles(files, t, done), resolve, root)
  {
    hide *;
    var files' := RaisedFiles(files, t, done);
    forall l | l in Walk(files, resolve, true, root)
      ensures SameLeads(files, files', l.path)
    {
      RaisedLeads(files, t, done, l.path);
    }
    FoundIs(files, resolve, root);
    FoundIs(files', resolve, root);
    WalkKept(files, files', resolve, root);
  }

  lemma RewrittenPaths(files: Files, resolve: Resolver, root: string, paths: set<string>, edit: Editor)
    requires KeepsAgents(edit) && Found(files, resolve, root)
    ensures Found(Rewritten(files, paths, edit), resolve, root)
    ensures forall b ::
              StagePaths(Rewritten(files, paths, edit), resolve, root, b) == StagePaths(files, resolve, root, b)
  {
    RewrittenWalk(files, resolve, root, paths, edit);
    hide Walk, Found, Rewritten, KeepsAgents;
  }

  /** Every stage works on the configs found at the start. */
  lemma StagesAgree(fw: Framework, resolve: Resolver, root: string, k: Knobs, files: Files)
    requires Found(files, resolve, root)
    ensures var f1, f2 := Floored(fw, resolve, root, k, files), TunedFiles(fw, resolve, root, k, files);
            var f3, f4 := Limited(fw, resolve, root, k, files), Applied(fw, resolve, root, k, files);
            && Found(f1, resolve, root) && Found(f2, resolve, root)
            && Found(f3, resolve, root) && Found(f4, resolve, root)
            && (forall b :: StagePaths(f1, resolve, root, b) == StagePaths(files, resolve, root, b))
            && (forall b :: StagePaths(f2, resolve, root, b) == StagePaths(files, resolve, root, b))
            && (forall b :: StagePaths(f3, resolve, root, b) == StagePaths(files, resolve, root, b))
            && (forall b :: StagePaths(f4, resolve, root, b) == StagePaths(files, resolve, root, b))
  {
    hide StagePaths, Found, Rewritten, KeepsAgents, RaisedFiles, Edges, PairsOf, FloorEditor, TuneEditor, SpawnEditor;
    EditorsKeepAgents(fw, k);
    RewrittenPaths(files, resolve, root, StagePaths(files, resolve, root, true), FloorEditor(fw, k));
    var f1 := Floored(fw, resolve, root, k, files);
    RewrittenPaths(f1, resolve, root, StagePaths(files, resolve, root, true), TuneEditor(fw, k));
    var f2 := TunedFiles(fw, resolve, root, k, files);
    RewrittenPaths(f2, resolve, root, StagePaths(files, resolve, root, false), SpawnEditor(fw, k));
    var f3 := Limited(fw, resolve, root, k, files);
    if k.timeout.Some? {
      RaisedPaths(f3, resolve, root, k.timeout.value, PairsOf(Edges(f3, resolve, root)));
    }
  }

  lemma RaisedPaths(files: Files, resolve: Resolver, root: string, t: real, done: set<(string, nat)>)
    requires Found(files, resolve, root)
    ensures Found(RaisedFiles(files, t, done), resolve, root)
    ensures forall b :: StagePaths(RaisedFiles(files, t, done), resolve, root, b) == StagePaths(files, resolve, root, b)
  {
    RaisedWalk(files, resolve, root, t, done);
    hide Walk, Found, RaisedFiles;
  }

  lemma NoFloor(fw: Framework, k: Knobs, files: Files, paths: set<string>)
    ensures k.tokenFloor.None? ==> Idle(files, paths, FloorEditor(fw, k)) && Doable(files, paths, FloorEditor(fw, k))
    ensures k.tokenFloor.None? ==> Rewritten(files, paths, FloorEditor(fw, k)) == files
  {
    if k.tokenFloor.None? {
      IdleDoable(files, paths, FloorEditor(fw, k));
    }
  }

  lemma NoSpawns(fw: Framework, k: Knobs, files: Files, paths: set<string>)
    ensures k.maxSpawns.None? ==> Idle(files, paths, SpawnEditor(fw, k)) && Doable(files, paths, SpawnEditor(fw, k))
    ensures k.maxSpawns.None? ==> Rewritten(files, paths, SpawnEditor(fw, k)) == files
  {
    if k.maxSpawns.None? {
      IdleDoable(files, paths, SpawnEditor(fw, k));
    }
  }

  lemma IdleDoable(files: Files, paths: set<string>, edit: Editor)
    requires Idle(files, paths, edit)
    ensures Doable(files, paths, edit) && Rewritten(files, paths, edit) == files
  {
    IdleKeeps(files, paths, edit);
  }

  // ---------------------------------------------------------------- one node is settled

  function RaisedIf(data: map<string, Value>, timeout: Option<real>, done: set<nat>): map<string, Value> {
    match timeout
    case Some(t) => RaisedData(data, t, done)
    case None => data
  }

  lemma RaisedIfSpawner(data: map<string, Value>, timeout: Option<real>, done: set<nat>)
    ensures Spawner(RaisedIf(data, timeout, done)) <==> Spawner(data)
  {
    AgentsOf(data);
    AgentsOf(RaisedIf(data, timeout, done));
    hide AgentList, Spawner, RaisedData;
    if timeout.Some? {
      RaisedAgents(data, timeout.value, done);
    }
  }

  lemma SpawnStageSpawner(fw: Framework, k: Knobs, data: map<string, Value>)
    ensures Spawner(Outcome(SpawnEdit(fw, k, data), data)) <==> Spawner(data)
  {
    SpawnKeeps(fw, k, data);
    AgentsOf(data);
    AgentsOf(Outcome(SpawnEdit(fw, k, data), data));
    hide AgentList, Spawner, SpawnEdit;
  }

  /** A node with loadable contents after the spawn and timeout stages. */
  lemma LimitSettled(fw: Framework, k: Knobs, data: map<string, Value>, done: set<nat>)
    requires IsFramework(fw) && Effective(fw, data).Some?
    ensures var after := RaisedIf(Outcome(SpawnEdit(fw, k, data), data), k.timeout, done);
            && Effective(fw, after).Some?
            && SpawnEdit(fw, k, after) == Some(Keep)
            && var v := ViewOf(Effective(fw, data).value);
               ViewOf(Effective(fw, after).value) == v.(spawns := LimitedSpawns(k, v.spawns, Spawner(data)))
  {
    hide Effective, IsFramework, ViewOf, SpawnEdit, RaisedData, Spawner, TuneNeeded;
    var limited := Outcome(SpawnEdit(fw, k, data), data);
    var after := RaisedIf(limited, k.timeout, done);
    SpawnOutcome(fw, k, data);
    SpawnStageSpawner(fw, k, data);
    RaisedIfSpawner(limited, k.timeout, done);
    if k.timeout.Some? {
      RaisedOutcome(fw, limited, k.timeout.value, done);
    }
    NothingLeft(fw, k, after);
  }

  /** A delegated node after all stages. */
  lemma NodeSettled(fw: Framework, k: Knobs, data: map<string, Value>, done: set<nat>)
    requires IsFramework(fw) && Bounded(k) && Effective(fw, data).Some?
    ensures var d1 := Outcome(FloorEdit(fw, k, data), data);
            var d2 := Outcome(TuneEdit(fw, k, d1), d1);
            var d4 := RaisedIf(Outcome(SpawnEdit(fw, k, d2), d2), k.timeout, done);
            && FloorEdit(fw, k, d4) == Some(Keep)
            && TuneEdit(fw, k, d4) == Some(Keep)
            && SpawnEdit(fw, k, d4) == Some(Keep)
  {
    hide Effective, IsFramework, ViewOf, FloorEdit, TuneEdit, SpawnEdit, RaisedIf, Tuned, TuneNeeded;
    var d1 := Outcome(FloorEdit(fw, k, data), data);
    FloorOutcome(fw, k, data);
    var d2 := Outcome(TuneEdit(fw, k, d1), d1);
    TuneOutcome(fw, k, d1);
    var d4 := RaisedIf(Outcome(SpawnEdit(fw, k, d2), d2), k.timeout, done);
    LimitSettled(fw, k, d2, done);
    var v1, v2, v4 := ViewOf(Effective(fw, d1).value), ViewOf(Effective(fw, d2).value), ViewOf(Effective(fw, d4).value);
    TunedMeets(fw, k, v1, v2);
    TuneIgnoresSpawns(fw, k, v2, v4);
    TunedTokens(fw, k, v1, v2);
    NothingLeft(fw, k, d4);
  }

  lemma TuneIgnoresSpawns(fw: Framework, k: Knobs, v: View, v': View)
    requires v' == v.(spawns := v'.spawns)
    ensures TuneNeeded(fw, v', k) == TuneNeeded(fw, v, k)
    ensures k.tokenFloor.Some? ==> TokensLow(v', k.tokenFloor.value) == TokensLow(v, k.tokenFloor.value)
  {
    if k.roleModel.Some? {
      SameLlm(fw, v, v', k.roleModel.value.0, k.roleModel.value.1);
    }
    hide RunsOn, Candidate.Reaches, CostWithin;
  }

  lemma TunedTokens(fw: Framework, k: Knobs, v: View, v': View)
    requires Tuned(fw, k, v, v')
    ensures k.tokenFloor.Some? ==> TokensLow(v', k.tokenFloor.value) == TokensLow(v, k.tokenFloor.value)
  {
    hide RunsOn, Candidate.Reaches, CostWithin;
  }

  lemma RootSettled(fw: Framework, k: Knobs, data: map<string, Value>, done: set<nat>)
    requires IsFramework(fw) && SpawnEdit(fw, k, data).Some?
    ensures SpawnEdit(fw, k, RaisedIf(Outcome(SpawnEdit(fw, k, data), data), k.timeout, done)) == Some(Keep)
  {
    var after := RaisedIf(Outcome(SpawnEdit(fw, k, data), data), k.timeout, done);
    SpawnStageSpawner(fw, k, data);
    RaisedIfSpawner(Outcome(SpawnEdit(fw, k, data), data), k.timeout, done);
    if k.maxSpawns.Some? && Spawner(data) {
      LimitSettled(fw, k, data, done);
    }
    hide Effective, Spawner, RaisedIf, IsFramework;
  }

  // ---------------------------------------------------------------- every file is settled

  lemma StagePathsFacts(files: Files, resolve: Resolver, root: string, p: string)
    requires Found(files, resolve, root)
    ensures p in StagePaths(files, resolve, root, true) <==> p in StagePaths(files, resolve, root, false) && p != root
    ensures p in StagePaths(files, resolve, root, false) ==> p in files && files[p].Map?
  {
    var walk := Walk(files, resolve, true, root);
    ReadableIsMap(files, walk);
    hide Walk;
    if p in PathsOf(walk) {
      var l :| l in walk && l.path == p;
    }
  }

  lemma RewrittenAt(files: Files, paths: set<string>, edit: Editor, p: string)
    requires p in files
    ensures p in Rewritten(files, paths, edit)
    ensures Rewritten(files, paths, edit)[p] == if p in paths then Edited(edit, files[p]) else files[p]
  {
  }

  function FinalIndices(k: Knobs, files: Files, edges: seq<Edge>, p: string): set<nat> {
    if k.timeout.Some? then IndicesOf(PairsOf(edges), p) else {}
  }

  lemma RaisedAt(k: Knobs, limited: Files, edges: seq<Edge>, p: string)
    requires p in limited && limited[p].Map?
    ensures var final := if k.timeout.Some? then RaisedFiles(limited, k.timeout.value, PairsOf(edges)) else limited;
            p in final && final[p] == Map(RaisedIf(limited[p].entries, k.timeout, FinalIndices(k, limited, edges, p)))
  {
    hide RaisedData, IndicesOf, PairsOf;
  }

  /** A file's way through the stages. */
  lemma FinalFile(fw: Framework, resolve: Resolver, root: string, k: Knobs, files: Files, p: string)
    returns (done: set<nat>)
    requires Found(files, resolve, root) && p in StagePaths(files, resolve, root, false)
    ensures p in files && files[p].Map?
    ensures var data := files[p].entries;
            var d1 := if p == root then data else Outcome(FloorEdit(fw, k, data), data);
            var d2 := if p == root then d1 else Outcome(TuneEdit(fw, k, d1), d1);
            var final := Applied(fw, resolve, root, k, files);
            && p in Floored(fw, resolve, root, k, files) && Floored(fw, resolve, root, k, files)[p] == Map(d1)
            && p in TunedFiles(fw, resolve, root, k, files) && TunedFiles(fw, resolve, root, k, files)[p] == Map(d2)
            && p in final && final[p] == Map(RaisedIf(Outcome(SpawnEdit(fw, k, d2), d2), k.timeout, done))
  {
    StagePathsFacts(files, resolve, root, p);
    hide StagePaths, Found, Rewritten, RaisedFiles, Edges, FloorEdit, TuneEdit, SpawnEdit, RaisedIf, IndicesOf, PairsOf;
    var f1, f2 := Floored(fw, resolve, root, k, files), TunedFiles(fw, resolve, root, k, files);
    var f3 := Limited(fw, resolve, root, k, files);
    RewrittenAt(files, StagePaths(files, resolve, root, true), FloorEditor(fw, k), p);
    RewrittenAt(f1, StagePaths(files, resolve, root, true), TuneEditor(fw, k), p);
    RewrittenAt(f2, StagePaths(files, resolve, root, false), SpawnEditor(fw, k), p);
    RaisedAt(k, f3, Edges(f3, resolve, root), p);
    done := FinalIndices(k, f3, Edges(f3, resolve, root), p);
  }

  /** What the stages demanded of the files. */
  ghost predicate StagesRan(fw: Framework, resolve: Resolver, root: string, k: Knobs, files: Files) {
    && Doable(files, StagePaths(files, resolve, root, true), FloorEditor(fw, k))
    && Doable(Floored(fw, resolve, root, k, files), StagePaths(files, resolve, root, true), TuneEditor(fw, k))
    && Doable(TunedFiles(fw, resolve, root, k, files), StagePaths(files, resolve, root, false), SpawnEditor(fw, k))
  }

  lemma DoableAt(files: Files, paths: set<string>, edit: Editor, p: string)
    requires Doable(files, paths, edit) && p in paths && p in files && files[p].Map?
    ensures edit(files[p].entries).Some?
  {
  }

  lemma FloorLoads(fw: Framework, k: Knobs, data: map<string, Value>)
    requires FloorEdit(fw, k, data).Some? && TuneEdit(fw, k, Outcome(FloorEdit(fw, k, data), data)).Some?
    ensures Effective(fw, data).Some?
  {
    hide Effective, ViewOf, PutIn, TuneNeeded, TunedData;
  }

  lemma DelegatedSettled(fw: Framework, resolve: Resolver, root: string, k: Knobs, files: Files, p: string)
    requires IsFramework(fw) && Bounded(k) && Found(files, resolve, root) && StagesRan(fw, resolve, root, k, files)
    requires p in StagePaths(files, resolve, root, true)
    ensures var final := Applied(fw, resolve, root, k, files);
            && p in final && final[p].Map?
            && FloorEdit(fw, k, final[p].entries) == Some(Keep)
            && TuneEdit(fw, k, final[p].entries) == Some(Keep)
            && SpawnEdit(fw, k, final[p].entries) == Some(Keep)
  {
    StagePathsFacts(files, resolve, root, p);
    var done := FinalFile(fw, resolve, root, k, files, p);
    hide StagePaths, Found, Doable, Floored, TunedFiles, Applied, IsFramework, FloorEdit, TuneEdit, SpawnEdit,
         RaisedIf, Effective;
    var data := files[p].entries;
    DoableAt(files, StagePaths(files, resolve, root, true), FloorEditor(fw, k), p);
    DoableAt(Floored(fw, resolve, root, k, files), StagePaths(files, resolve, root, true), TuneEditor(fw, k), p);
    FloorLoads(fw, k, data);
    NodeSettled(fw, k, data, done);
  }

  /** The walk starts at the root. */
  lemma RootFound(files: Files, resolve: Resolver, root: string)
    ensures root in StagePaths(files, resolve, root, false)
  {
    WalkExact(files, resolve, true, root);
    ReachesSelf(NextOf(files, resolve, true), root);
    assert Reached(files, resolve, true, root, root);
  }

  lemma RootFileSettled(fw: Framework, resolve: Resolver, root: string, k: Knobs, files: Files)
    requires IsFramework(fw) && Found(files, resolve, root) && StagesRan(fw, resolve, root, k, files)
    ensures var final := Applied(fw, resolve, root, k, files);
            root in final && final[root].Map? && SpawnEdit(fw, k, final[root].entries) == Some(Keep)
  {
    RootFound(files, resolve, root);
    StagePathsFacts(files, resolve, root, root);
    var done := FinalFile(fw, resolve, root, k, files, root);
    hide StagePaths, Found, Doable, Floored, TunedFiles, Applied, IsFramework, FloorEdit, TuneEdit, SpawnEdit,
         RaisedIf, Effective;
    DoableAt(TunedFiles(fw, resolve, root, k, files), StagePaths(files, resolve, root, false),
             SpawnEditor(fw, k), root);
    RootSettled(fw, k, files[root].entries, done);
  }

  /** So the first three stages have nothing left to do. */
  lemma StagesSettled(fw: Framework, resolve: Resolver, root: string, k: Knobs, files: Files)
    requires IsFramework(fw) && Bounded(k) && Found(files, resolve, root) && StagesRan(fw, resolve, root, k, files)
    ensures var final := Applied(fw, resolve, root, k, files);
            && Idle(final, StagePaths(files, resolve, root, true), FloorEditor(fw, k))
            && Idle(final, StagePaths(files, resolve, root, true), TuneEditor(fw, k))
            && Idle(final, StagePaths(files, resolve, root, false), SpawnEditor(fw, k))
  {
    var final := Applied(fw, resolve, root, k, files);
    hide StagePaths, Found, Applied, IsFramework, FloorEdit, TuneEdit, SpawnEdit, StagesRan, Bounded;
    forall p | p in StagePaths(files, resolve, root, true) && p in final && final[p].Map?
      ensures FloorEdit(fw, k, final[p].entries) == Some(Keep) && TuneEdit(fw, k, final[p].entries) == Some(Keep)
    {
      DelegatedSettled(fw, resolve, root, k, files, p);
    }
    forall p | p in StagePaths(files, resolve, root, false) && p in final && final[p].Map?
      ensures SpawnEdit(fw, k, final[p].entries) == Some(Keep)
    {
      StagePathsFacts(files, resolve, root, p);
      if p == root {
        RootFileSettled(fw, resolve, root, k, files);
      } else {
        DelegatedSettled(fw, resolve, root, k, files, p);
      }
    }
  }

  // ---------------------------------------------------------------- every timeout is settled

  lemma {:induction false} SameAllEdges(files: Files, files': Files, resolve: Resolver, locations: seq<Location>)
    requires forall l :: l in locations ==> EdgesAt(files', resolve, l) == EdgesAt(files, resolve, l)
    ensures AllEdges(files', resolve, locations) == AllEdges(files, resolve, locations)
  {
    hide EdgesAt;
    if locations != [] {
      assert locations[0] in locations;
      assert forall l :: l in locations[1..] ==> l in locations;
      SameAllEdges(files, files', resolve, locations[1..]);
    }
  }

  lemma SameEdgesAt(files: Files, files': Files, resolve: Resolver, l: Location)
    requires Readable(files, l.path, true) && SameLeads(files, files', l.path)
    ensures EdgesAt(files', resolve, l) == EdgesAt(files, resolve, l)
  {
    UntimedSame(files, l.path);
    UntimedSame(files', l.path);
    hide Delegates, SameRefs;
    SameEdgesFrom(resolve, l, Delegates(files, l.path, false).value, Delegates(files', l.path, false).value);
  }

  lemma UntimedSame(files: Files, p: string)
    requires Delegates(files, p, true).Some?
    ensures Delegates(files, p, false) == Delegates(files, p, true)
  {
    hide Refs, AgentList;
  }

  lemma SameEdgesFrom(resolve: Resolver, l: Location, a: seq<AgentRef>, b: seq<AgentRef>)
    requires SameRefs(a, b)
    ensures EdgesFrom(resolve, l, a) == EdgesFrom(resolve, l, b)
  {
  }

  /** Raising timeouts leaves the edges as they are. */
  lemma RaisedEdges(files: Files, resolve: Resolver, root: string, t: real, done: set<(string, nat)>)
    requires Found(files, resolve, root)
    ensures Edges(RaisedFiles(files, t, done), resolve, root) == Edges(files, resolve, root)
  {
    var files', walk := RaisedFiles(files, t, done), Walk(files, resolve, true, root);
    RaisedWalk(files, resolve, root, t, done);
    FoundIs(files, resolve, root);
    FoundIs(files', resolve, root);
    WalksAgree(files, resolve, root);
    WalksAgree(files', resolve, root);
    hide Walk, RaisedFiles, EdgesAt, Found;
    forall l | l in walk
      ensures EdgesAt(files', resolve, l) == EdgesAt(files, resolve, l)
    {
      assert Readable(files, l.path, true);
      RaisedLeads(files, t, done, l.path);
      SameEdgesAt(files, files', resolve, l);
    }
    SameAllEdges(files, files', resolve, walk);
  }

  lemma RaisedMeets(files: Files, t: real, done: set<(string, nat)>, e: Edge)
    requires EdgeFits(files, e) && (e.parent, e.index) in done
    ensures EdgeFits(RaisedFiles(files, t, done), e) && EntryMet(RaisedFiles(files, t, done), e, t)
  {
    var data, indices := files[e.parent].entries, IndicesOf(done, e.parent);
    assert files[e.parent] == Map(data) && e.index in indices;
    CurrentList(data, t, indices);
    RaisedTwice(AgentList(Map(data)).value[e.index], t);
    hide AgentList, Spawner, RaisedData, RaisedEntry;
  }

  lemma TimeoutsSettled(files: Files, resolve: Resolver, root: string, t: real)
    requires Found(files, resolve, root)
    ensures var final := RaisedFiles(files, t, PairsOf(Edges(files, resolve, root)));
            Edges(final, resolve, root) == Edges(files, resolve, root) && AllMet(final, Edges(final, resolve, root), t)
  {
    hide *;
    var edges := Edges(files, resolve, root);
    var final := RaisedFiles(files, t, PairsOf(edges));
    RaisedEdges(files, resolve, root, t, PairsOf(edges));
    FoundIs(files, resolve, root);
    EdgesAllFit(files, resolve, root);
    forall e | e in edges
      ensures EdgeFits(final, e) && EntryMet(final, e, t)
    {
      PairOf(edges, e);
      RaisedMeets(files, t, PairsOf(edges), e);
    }
    AllMetIs(final, edges, t);
  }

  lemma AllMetIs(files: Files, edges: seq<Edge>, t: real)
    requires forall e :: e in edges ==> EdgeFits(files, e) && EntryMet(files, e, t)
    ensures AllMet(files, edges, t)
  {
    hide EdgeFits, EntryMet;
  }

  // ---------------------------------------------------------------- putting the stages together

  lemma NotQuiet(fw: Framework, resolve: Resolver, root: string, k: Knobs, files: Files)
    requires !Bounded(k)
    ensures !Quiet(fw, resolve, root, k, files)
  {
  }

  lemma QuietIdle(fw: Framework, resolve: Resolver, root: string, k: Knobs, files: Files)
    requires Quiet(fw, resolve, root, k, files)
    ensures Found(files, resolve, root)
    ensures Idle(files, StagePaths(files, resolve, root, true), FloorEditor(fw, k))
    ensures Idle(files, StagePaths(files, resolve, root, true), TuneEditor(fw, k))
    ensures Idle(files, StagePaths(files, resolve, root, false), SpawnEditor(fw, k))
    ensures k.timeout.Some? ==> AllMet(files, Edges(files, resolve, root), k.timeout.value)
    ensures k.timeout.Some? ==> forall e :: e in Edges(files, resolve, root) ==> Loads(fw, files, e.parent)
  {
    hide Bounded, Found, Idle, StagePaths, AllMet, Edges, Loads;
  }

  lemma StageFiles(fw: Framework, resolve: Resolver, root: string, k: Knobs, files: Files)
    ensures var f1, f2 := Floored(fw, resolve, root, k, files), TunedFiles(fw, resolve, root, k, files);
            var f3 := Limited(fw, resolve, root, k, files);
            && f1 == Rewritten(files, StagePaths(files, resolve, root, true), FloorEditor(fw, k))
            && f2 == Rewritten(f1, StagePaths(files, resolve, root, true), TuneEditor(fw, k))
            && f3 == Rewritten(f2, StagePaths(files, resolve, root, false), SpawnEditor(fw, k))
            && (k.timeout.None? ==> Applied(fw, resolve, root, k, files) == f3)
            && (k.timeout.Some? ==> Applied(fw, resolve, root, k, files)
                                    == RaisedFiles(f3, k.timeout.value, PairsOf(Edges(f3, resolve, root))))
  {
    hide StagePaths, Rewritten, RaisedFiles, Edges, PairsOf, FloorEditor, TuneEditor, SpawnEditor;
  }

  /** An idle stage can be carried out and changes nothing. */
  lemma StageQuiet(files: Files, paths: set<string>, edit: Editor)
    ensures Idle(files, paths, edit) ==> Doable(files, paths, edit) && Rewritten(files, paths, edit) == files
  {
    if Idle(files, paths, edit) {
      IdleDoable(files, paths, edit);
    }
  }

  lemma RanAll(fw: Framework, resolve: Resolver, root: string, k: Knobs, files: Files)
    requires Doable(files, StagePaths(files, resolve, root, true), FloorEditor(fw, k))
    requires Doable(Floored(fw, resolve, root, k, files), StagePaths(files, resolve, root, true), TuneEditor(fw, k))
    requires Doable(TunedFiles(fw, resolve, root, k, files), StagePaths(files, resolve, root, false),
                    SpawnEditor(fw, k))
    ensures StagesRan(fw, resolve, root, k, files)
  {
  }

  /** After a run nothing is left to do. */
  lemma QuietAfter(fw: Framework, resolve: Resolver, root: string, k: Knobs, files: Files)
    requires IsFramework(fw) && Bounded(k) && Found(files, resolve, root) && StagesRan(fw, resolve, root, k, files)
    requires k.timeout.Some? ==>
               forall e :: e in Edges(Limited(fw, resolve, root, k, files), resolve, root) ==>
                 Loads(fw, Applied(fw, resolve, root, k, files), e.parent)
    ensures Quiet(fw, resolve, root, k, Applied(fw, resolve, root, k, files))
  {
    hide IsFramework, Bounded, Found, StagesRan, StagePaths, Idle, Floored, TunedFiles, Limited, Applied, Loads,
         AllMet, Edges, RaisedFiles, PairsOf, FloorEditor, TuneEditor, SpawnEditor;
    StagesAgree(fw, resolve, root, k, files);
    StagesSettled(fw, resolve, root, k, files);
    StageFiles(fw, resolve, root, k, files);
    if k.timeout.Some? {
      TimeoutsSettled(Limited(fw, resolve, root, k, files), resolve, root, k.timeout.value);
    }
  }

  // ---------------------------------------------------------------- what a settled company looks like

  /** The effective values of a node meet the candidate. */
  ghost predicate Meets(fw: Framework, k: Knobs, data: map<string, Value>) {
    && Effective(fw, data).Some?
    && var v := ViewOf(Effective(fw, data).value);
       && (k.tokenFloor.Some? && Whole(Get(v.llm, "max_tokens")).Some?
           ==> Whole(Get(v.llm, "max_tokens")).value >= k.tokenFloor.value)
       && (k.stepBudget.Some? ==> Candidate.Reaches(v.steps, k.stepBudget.value))
       && (k.topK.Some? ==> Candidate.Reaches(v.topK, k.topK.value))
       && (k.strategy.Some? ==> v.strategy == Text(k.strategy.value))
       && (k.costCeiling.Some? ==> CostWithin(v.cost, k.costCeiling.value))
       && (k.roleModel.Some? ==> RunsOn(fw, v, k.roleModel.value.0, k.roleModel.value.1))
       && (k.maxSpawns.Some? && Spawner(data) ==> Candidate.Reaches(v.spawns, k.maxSpawns.value))
  }

  lemma KeptMeets(fw: Framework, k: Knobs, data: map<string, Value>)
    requires FloorEdit(fw, k, data) == Some(Keep) && TuneEdit(fw, k, data) == Some(Keep)
    requires SpawnEdit(fw, k, data) == Some(Keep)
    ensures Meets(fw, k, data)
  {
    hide Effective, ViewOf, Spawner, PutIn, TunedData, RunsOn;
  }

  /** After a run every reachable delegated node meets the candidate, and every delegation's timeout is
      high enough. */
  lemma RunMeets(fw: Framework, resolve: Resolver, root: string, k: Knobs, files: Files)
    requires Quiet(fw, resolve, root, k, files)
    ensures forall path :: Reached(files, resolve, true, root, path) && path != root
                           ==> path in files && files[path].Map? && Meets(fw, k, files[path].entries)
    ensures k.timeout.Some? ==> forall e :: e in Edges(files, resolve, root) ==>
              EdgeFits(files, e) && EntryMet(files, e, k.timeout.value)
  {
    hide Walk, Reached, Meets, FloorEdit, TuneEdit, SpawnEdit, Bounded, Edges, EdgeFits, EntryMet, Loads;
    WalkExact(files, resolve, true, root);
    ReadableIsMap(files, Walk(files, resolve, true, root));
    forall path | Reached(files, resolve, true, root, path) && path != root
      ensures path in files && files[path].Map? && Meets(fw, k, files[path].entries)
    {
      var l :| l in Walk(files, resolve, true, root) && l.path == path;
      assert path in StagePaths(files, resolve, root, true) && path in StagePaths(files, resolve, root, false);
      KeptMeets(fw, k, files[path].entries);
    }
  }

  lemma OnlySection(data: map<string, Value>, path: Path, x: Value, name: string)
    requires path != [] && path[0] != name
    ensures Get(PutIn(data, path, x), name) == Get(data, name)
    ensures name in PutIn(data, path, x) <==> name in data
  {
  }

  lemma OnlyTools(fw: Framework, k: Knobs, data: map<string, Value>, done: set<nat>, name: string)
    requires name != "tools"
    ensures var after := RaisedIf(Outcome(SpawnEdit(fw, k, data), data), k.timeout, done);
            Get(after, name) == Get(data, name) && (name in after <==> name in data)
  {
    hide Effective, ViewOf, PutIn, Spawner;
    var limited := Outcome(SpawnEdit(fw, k, data), data);
    if k.maxSpawns.Some? {
      OnlySection(data, ["tools", "max_parallel_spawns"], Int(k.maxSpawns.value), name);
    }
    if k.timeout.Some? && Spawner(limited) {
      SpawnerList(limited);
      OnlySection(limited, ["tools", "agents"],
                  List(RaisedList(At(Map(limited), ["tools", "agents"]).value.items, k.timeout.value, done)), name);
    }
  }

  /** The root keeps its own agent, memory and llm sections: only its tools section may change. */
  lemma RootUntouched(fw: Framework, resolve: Resolver, root: string, k: Knobs, files: Files, name: string)
    requires Found(files, resolve, root) && name != "tools"
    ensures var final := Applied(fw, resolve, root, k, files);
            && root in files && files[root].Map? && root in final && final[root].Map?
            && Get(final[root].entries, name) == Get(files[root].entries, name)
            && (name in final[root].entries <==> name in files[root].entries)
  {
    hide Found, StagePaths, Applied, Floored, TunedFiles, SpawnEdit, RaisedIf;
    RootFound(files, resolve, root);
    var done := FinalFile(fw, resolve, root, k, files, root);
    OnlyTools(fw, k, files[root].entries, done, name);
  }

  /** Files no delegation leads to stay as they are. */
  lemma OthersUntouched(fw: Framework, resolve: Resolver, root: string, k: Knobs, files: Files, p: string)
    requires Found(files, resolve, root) && p in files && p !in StagePaths(files, resolve, root, false)
    ensures p in Applied(fw, resolve, root, k, files) && Applied(fw, resolve, root, k, files)[p] == files[p]
  {
    hide Walk, Found, FloorEdit, TuneEdit, SpawnEdit, Edges;
    StageFiles(fw, resolve, root, k, files);
    var f1, f2 := Floored(fw, resolve, root, k, files), TunedFiles(fw, resolve, root, k, files);
    var f3 := Limited(fw, resolve, root, k, files);
    RewrittenAt(files, StagePaths(files, resolve, root, true), FloorEditor(fw, k), p);
    RewrittenAt(f1, StagePaths(files, resolve, root, true), TuneEditor(fw, k), p);
    RewrittenAt(f2, StagePaths(files, resolve, root, false), SpawnEditor(fw, k), p);
    if k.timeout.Some? {
      StagesAgree(fw, resolve, root, k, files);
      NoEdgesOut(f3, resolve, root, p);
      assert IndicesOf(PairsOf(Edges(f3, resolve, root)), p) == {};
      if f3[p].Map? {
        NoneRaised(f3[p].entries, k.timeout.value);
      }
    }
  }

  lemma NoEdgesOut(files: Files, resolve: Resolver, root: string, p: string)
    requires Found(files, resolve, root) && p !in StagePaths(files, resolve, root, false)
    ensures forall e :: e in Edges(files, resolve, root) ==> e.parent != p
  {
    FoundIs(files, resolve, root);
    WalksAgree(files, resolve, root);
    var walk := Walk(files, resolve, false, root);
    forall e | e in Edges(files, resolve, root) ensures e.parent != p {
      AllEdgesMember(files, resolve, walk, e);
      var l :| l in walk && e in EdgesAt(files, resolve, l);
      EntryFits(files, resolve, l, e);
      assert l.path in PathsOf(walk);
    }
  }
}
