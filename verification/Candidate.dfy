/** A bounded candidate applied to one config: what is effective before, what is written, and what is
    effective after. */
module Candidate {
  import opened Options
  import opened ConfigValue
  import opened ConfigMerge
  import opened ConfigEdit

  // ---------------------------------------------------------------- loading

  /** What a config is loaded with: the framework's defaults, and `str.lower`. */
  datatype Framework = Framework(defaults: map<string, Value>, lower: string -> string)

  /** A small model for each provider, for narration without a model of its own. */
  const CHEAP_NARRATOR := map[
    "gemini" := "gemini-2.5-flash-lite",
    "anthropic" := "claude-haiku-4-5",
    "openai" := "gpt-5-nano",
    "openrouter" := "google/gemini-2.5-flash-lite"]

  /** `get(key) or default`, then lower case: fails on anything true that is not text. */
  predicate ProviderOk(m: map<string, Value>) {
    Falsy(Get(m, "provider")) || Get(m, "provider").Text?
  }

  function Provider(fw: Framework, m: map<string, Value>, default: string): string
    requires ProviderOk(m)
  {
    if Falsy(Get(m, "provider")) then fw.lower(default) else fw.lower(Get(m, "provider").text)
  }

  /** The role's entry, with the older flat model key lifted into a missing one. */
  function RoleEntry(llm: map<string, Value>, role: string): Value {
    var entry, legacy := Get(llm, role), Get(llm, role + "_model");
    if role != "planner" && entry.Null? && !Falsy(legacy) then Map(map["model" := legacy]) else entry
  }

  predicate RoleOk(llm: map<string, Value>, role: string) {
    var entry := RoleEntry(llm, role);
    entry.Null? || entry.Text? || (entry.Map? && ProviderOk(entry.entries))
  }

  predicate RolesOk(llm: map<string, Value>) {
    ProviderOk(llm) && RoleOk(llm, "decompose") && RoleOk(llm, "planner") && RoleOk(llm, "narrator")
  }

  /** The model a role runs on; null when it is disabled. */
  function RoleModel(fw: Framework, llm: map<string, Value>, role: string): Value
    requires ProviderOk(llm) && (role != "main" ==> RoleOk(llm, role))
  {
    if role == "main" then Get(llm, "model")
    else
      match RoleEntry(llm, role)
      case Null => Null
      case Text(model) => OwnModel(fw, llm, role, map["model" := Text(model)])
      case Map(m) => OwnModel(fw, llm, role, m)
  }

  function OwnModel(fw: Framework, llm: map<string, Value>, role: string, m: map<string, Value>): Value
    requires ProviderOk(llm) && ProviderOk(m)
  {
    var parent, own := Get(llm, "model"), Get(m, "model");
    if role == "narrator" && own.Null? then
      var provider := Provider(fw, m, Provider(fw, llm, "gemini"));
      if provider in CHEAP_NARRATOR then Text(CHEAP_NARRATOR[provider]) else parent
    else if Falsy(own) then parent
    else own
  }

  /** The effective config a file loads to; none if loading fails. */
  function Effective(fw: Framework, data: map<string, Value>): Option<Value> {
    if AcceptedOver(fw.defaults, data) && Section(Loaded(fw.defaults, data), "llm").Some?
       && RolesOk(Section(Loaded(fw.defaults, data), "llm").value)
    then Some(Loaded(fw.defaults, data))
    else None
  }

  function Section(v: Value, name: string): Option<map<string, Value>> {
    if v.Map? && name in v.entries && v.entries[name].Map? then Some(v.entries[name].entries) else None
  }

  // ---------------------------------------------------------------- the candidate

  datatype Knobs = Knobs(
    tokenFloor: Option<int>,
    stepBudget: Option<int>,
    topK: Option<int>,
    strategy: Option<string>,
    costCeiling: Option<real>,
    roleModel: Option<(string, string)>,
    maxSpawns: Option<int>,
    timeout: Option<real>)

  /** The bounds a candidate must keep. */
  predicate Bounded(k: Knobs) {
    && (k.tokenFloor.Some? ==> 64 <= k.tokenFloor.value <= 4096)
    && (k.stepBudget.Some? ==> 1 <= k.stepBudget.value <= 200)
    && (k.topK.Some? ==> 1 <= k.topK.value <= 50)
    && (k.strategy.Some? ==> k.strategy.value in {"dense", "sparse", "hybrid", "hybrid+mmr"})
    && (k.costCeiling.Some? ==> 0.0 < k.costCeiling.value <= 10.0)
    && (k.roleModel.Some? ==> k.roleModel.value.0 in {"main", "decompose", "planner", "narrator"}
                              && k.roleModel.value.1 != "")
    && (k.maxSpawns.Some? ==> 1 <= k.maxSpawns.value <= 64)
    && (k.timeout.Some? ==> 1.0 <= k.timeout.value <= 3600.0)
  }

  // ---------------------------------------------------------------- effective values

  /** The value at a path of the effective config; null where there is none. */
  function ValueAt(e: Value, path: Path): Value {
    match At(e, path)
    case Some(v) => v
    case None => Null
  }

  /** The budget a sub-agent actually gets: its own override before the agent's, a default for anything
      that is not a number. */
  function EffectiveBudget(e: Value, field: string, default: Value): Value {
    var own := ValueAt(e, ["agent", "subagent", field]);
    var value := if own.Null? then ValueAt(e, ["agent", field]) else own;
    if Number(value).Some? then value else default
  }

  /** The effective values a candidate is about. */
  datatype View = View(
    steps: Value,
    cost: Value,
    topK: Value,
    strategy: Value,
    spawns: Value,
    llm: map<string, Value>)

  function ViewOf(e: Value): View {
    View(EffectiveBudget(e, "max_steps", Int(10)),
         EffectiveBudget(e, "max_cost_usd", Null),
         ValueAt(e, ["memory", "top_k"]),
         ValueAt(e, ["memory", "retrieval_strategy"]),
         match At(e, ["tools", "max_parallel_spawns"]) case Some(v) => v case None => Int(4),
         match Section(e, "llm") case Some(llm) => llm case None => map[])
  }

  /** A whole number that is high enough already. */
  predicate Reaches(v: Value, floor: int) {
    Whole(v).Some? && Whole(v).value >= floor
  }

  predicate CostWithin(v: Value, ceiling: real) {
    Number(v).Some? && Number(v).value <= ceiling
  }

  /** The token floor is for whole numbers only; anything else is left alone. */
  predicate TokensLow(v: View, floor: int) {
    var tokens := Whole(Get(v.llm, "max_tokens"));
    tokens.Some? && tokens.value < floor
  }

  predicate RunsOn(fw: Framework, v: View, role: string, model: string) {
    && RolesOk(v.llm)
    && role in {"main", "decompose", "planner", "narrator"}
    && RoleModel(fw, v.llm, role) == Text(model)
  }

  // ---------------------------------------------------------------- the edits

  /** What a stage makes of one file: nothing, or new contents. */
  datatype Edit = Keep | Write(data: map<string, Value>)

  function PutIn(data: map<string, Value>, path: Path, x: Value): map<string, Value>
    requires path != []
  {
    Put(Map(data), path, x).entries
  }

  predicate HasOverride(data: map<string, Value>) {
    var subagent := At(Map(data), ["agent", "subagent"]);
    subagent.Some? && subagent.value.Map?
  }

  /** A budget, and its declared sub-agent override if there is one. */
  function WithBudget(data: map<string, Value>, field: string, x: Value): map<string, Value> {
    var own := PutIn(data, ["agent", field], x);
    if HasOverride(data) then PutIn(own, ["agent", "subagent", field], x) else own
  }

  function ModelPath(role: string): Path {
    if role == "main" then ["llm", "model"] else ["llm", role, "model"]
  }

  /** The token floor: only a whole number below it is raised. */
  function FloorEdit(fw: Framework, k: Knobs, data: map<string, Value>): Option<Edit> {
    if k.tokenFloor.None? then Some(Keep)
    else
      var e := Effective(fw, data);
      if e.None? then None
      else if !TokensLow(ViewOf(e.value), k.tokenFloor.value) then Some(Keep)
      else Some(Write(PutIn(data, ["llm", "max_tokens"], Int(k.tokenFloor.value))))
  }

  predicate StepsNeeded(v: View, k: Knobs) {
    k.stepBudget.Some? && !Reaches(v.steps, k.stepBudget.value)
  }

  predicate TopKNeeded(v: View, k: Knobs) {
    k.topK.Some? && !Reaches(v.topK, k.topK.value)
  }

  predicate StrategyNeeded(v: View, k: Knobs) {
    k.strategy.Some? && v.strategy != Text(k.strategy.value)
  }

  predicate CostNeeded(v: View, k: Knobs) {
    k.costCeiling.Some? && !CostWithin(v.cost, k.costCeiling.value)
  }

  predicate ModelNeeded(fw: Framework, v: View, k: Knobs) {
    k.roleModel.Some? && !RunsOn(fw, v, k.roleModel.value.0, k.roleModel.value.1)
  }

  function TunedSteps(v: View, k: Knobs, data: map<string, Value>): map<string, Value> {
    if StepsNeeded(v, k) then WithBudget(data, "max_steps", Int(k.stepBudget.value)) else data
  }

  function TunedTopK(v: View, k: Knobs, data: map<string, Value>): map<string, Value> {
    if TopKNeeded(v, k) then PutIn(data, ["memory", "top_k"], Int(k.topK.value)) else data
  }

  function TunedStrategy(v: View, k: Knobs, data: map<string, Value>): map<string, Value> {
    if StrategyNeeded(v, k) then PutIn(data, ["memory", "retrieval_strategy"], Text(k.strategy.value)) else data
  }

  function TunedCost(v: View, k: Knobs, data: map<string, Value>): map<string, Value> {
    if CostNeeded(v, k) then WithBudget(data, "max_cost_usd", Float(k.costCeiling.value)) else data
  }

  function TunedModel(fw: Framework, v: View, k: Knobs, data: map<string, Value>): map<string, Value> {
    if ModelNeeded(fw, v, k)
    then PutIn(data, ModelPath(k.roleModel.value.0), Text(k.roleModel.value.1))
    else data
  }

  predicate TuneNeeded(fw: Framework, v: View, k: Knobs) {
    StepsNeeded(v, k) || TopKNeeded(v, k) || StrategyNeeded(v, k) || CostNeeded(v, k) || ModelNeeded(fw, v, k)
  }

  /** The knobs of a delegated node, all judged by what was effective before any of them is turned. */
  function TuneEdit(fw: Framework, k: Knobs, data: map<string, Value>): Option<Edit> {
    var e := Effective(fw, data);
    if e.None? then None
    else
      var v := ViewOf(e.value);
      if !TuneNeeded(fw, v, k) then Some(Keep)
      else
        Some(Write(TunedData(fw, k, v, data)))
  }

  predicate Spawner(data: map<string, Value>) {
    var agents := At(Map(data), ["tools", "agents"]);
    agents.Some? && agents.value.List? && agents.value.items != []
  }

  /** The spawn limit of a node with delegates, the root included. */
  function SpawnEdit(fw: Framework, k: Knobs, data: map<string, Value>): Option<Edit> {
    if k.maxSpawns.None? || !Spawner(data) then Some(Keep)
    else
      var e := Effective(fw, data);
      if e.None? then None
      else if Reaches(ViewOf(e.value).spawns, k.maxSpawns.value) then Some(Keep)
      else Some(Write(PutIn(data, ["tools", "max_parallel_spawns"], Int(k.maxSpawns.value))))
  }

  // ---------------------------------------------------------------- what an edit does to the effective config

  const TUNABLE: set<Path> := {
    ["llm", "max_tokens"], ["llm", "model"],
    ["llm", "decompose", "model"], ["llm", "planner", "model"], ["llm", "narrator", "model"],
    ["agent", "max_steps"], ["agent", "max_cost_usd"],
    ["agent", "subagent", "max_steps"], ["agent", "subagent", "max_cost_usd"],
    ["memory", "top_k"], ["memory", "retrieval_strategy"],
    ["tools", "max_parallel_spawns"], ["tools", "agents"]}

  predicate IsMapAt(v: Value, path: Path) {
    At(v, path).Some? && At(v, path).value.Map?
  }

  /** What the edits rely on in the framework's defaults: the sections and the sub-agent section are
      mappings, no edited value is, and no sub-agent budget is preset. */
  ghost predicate IsFramework(fw: Framework) {
    var d := Map(fw.defaults);
    && (forall path :: path in TUNABLE ==> NoMapAt(d, path))
    && IsMapAt(d, ["agent"]) && IsMapAt(d, ["memory"]) && IsMapAt(d, ["llm"]) && IsMapAt(d, ["tools"])
    && IsMapAt(d, ["agent", "subagent"])
    && ValueAt(d, ["agent", "subagent", "max_steps"]) == Null
    && ValueAt(d, ["agent", "subagent", "max_cost_usd"]) == Null
  }

  predicate IsLlmPath(path: Path) {
    || path == ["llm", "max_tokens"] || path == ["llm", "model"]
    || path == ["llm", "decompose", "model"]
    || path == ["llm", "planner", "model"] || path == ["llm", "narrator", "model"]
  }

  lemma TunableShape(path: Path)
    requires path in TUNABLE
    ensures path != [] && path[0] in {"llm", "agent", "memory", "tools"}
    ensures path[0] == "memory" ==> |path| == 2 && path[1] != "profile"
    ensures path[0] == "llm" ==> IsLlmPath(path)
  {
  }

  lemma AtOne(v: Value, k: string)
    ensures At(v, [k]) == if v.Map? && k in v.entries then Some(v.entries[k]) else None
  {
    assert [k][1..] == [];
  }

  lemma AtTwo(v: Value, k: string, j: string)
    ensures At(v, [k, j])
            == if Section(v, k).Some? && j in Section(v, k).value
                  then Some(Section(v, k).value[j])
                  else None
  {
    assert [k, j][1..] == [j];
    if v.Map? && k in v.entries {
      AtOne(v.entries[k], j);
    }
  }

  /** An edit under one section leaves the others alone and keeps its own a mapping. */
  lemma SectionPut(e: Value, path: Path, x: Value, name: string)
    requires |path| > 1 && e.Map?
    ensures name != path[0] ==> Section(Put(e, path, x), name) == Section(e, name)
    ensures Section(e, path[0]).Some?
            ==> Put(Map(Section(e, path[0]).value), path[1..], x).Map?
                && Section(Put(e, path, x), path[0]) == Some(Put(Map(Section(e, path[0]).value), path[1..], x).entries)
  {
  }

  lemma SingleKeyPut(llm: map<string, Value>, k: string, x: Value)
    ensures Put(Map(llm), [k], x) == Map(llm[k := x])
  {
    assert [k][1..] == [];
  }

  /** The role section after a model was set in it. */
  lemma LlmRolePut(llm: map<string, Value>, role: string, x: Value)
    ensures Put(Map(llm), [role, "model"], x)
            == Map(llm[role := Map((if role in llm && llm[role].Map? then llm[role].entries else map[])["model" := x])])
  {
    var child := if role in llm then llm[role] else Map(map[]);
    assert [role, "model"][1..] == ["model"];
    SingleKeyPut(if child.Map? then child.entries else map[], "model", x);
    PutOnNoMap(child, ["model"], x);
  }

  lemma RolesOkKey(llm: map<string, Value>, k: string, x: Value)
    requires k == "max_tokens" || k == "model"
    ensures RolesOk(llm[k := x]) == RolesOk(llm)
    ensures forall role :: role in {"decompose", "planner", "narrator"} ==>
              RoleEntry(llm[k := x], role) == RoleEntry(llm, role)
  {
    assert k !in {"provider", "decompose", "planner", "narrator", "decompose_model", "planner_model", "narrator_model"};
  }

  lemma RolesOkRole(llm: map<string, Value>, role: string, x: Value)
    requires RolesOk(llm) && role in {"decompose", "planner", "narrator"}
    ensures var old' := if role in llm && llm[role].Map? then llm[role].entries else map[];
            RolesOk(llm[role := Map(old'["model" := x])])
  {
    var old' := if role in llm && llm[role].Map? then llm[role].entries else map[];
    var after := llm[role := Map(old'["model" := x])];
    assert Get(old'["model" := x], "provider") == Get(old', "provider");
    assert ProviderOk(after);
    forall r | r in {"decompose", "planner", "narrator"}
      ensures RoleOk(after, r)
    {
      assert Get(after, r + "_model") == Get(llm, r + "_model") by {
        assert r + "_model" !in {"decompose", "planner", "narrator"} by {
          assert (r + "_model")[|r|] == '_';
        }
      }
    }
  }

  /** The roles still resolve after any edit. */
  lemma RolesStayOk(e: Value, path: Path, x: Value)
    requires e.Map? && Section(e, "llm").Some? && RolesOk(Section(e, "llm").value)
    requires path in TUNABLE
    ensures Section(Put(e, path, x), "llm").Some? && RolesOk(Section(Put(e, path, x), "llm").value)
  {
    TunableShape(path);
    TunableLong(path);
    SectionPut(e, path, x, "llm");
    var llm := Section(e, "llm").value;
    hide Put, RolesOk, Section;
    if path[0] == "llm" {
      if path == ["llm", "max_tokens"] || path == ["llm", "model"] {
        assert path[1..] == [path[1]];
        SingleKeyPut(llm, path[1], x);
        RolesOkKey(llm, path[1], x);
      } else {
        assert path[1..] == [path[1], "model"];
        LlmRolePut(llm, path[1], x);
        RolesOkRole(llm, path[1], x);
      }
    }
  }

  lemma TunableLong(path: Path)
    requires path in TUNABLE
    ensures |path| > 1
  {
  }

  /** Editing the file edits the effective config the same way. */
  lemma EffectivePut(fw: Framework, data: map<string, Value>, path: Path, x: Value)
    requires IsFramework(fw) && Effective(fw, data).Some? && path in TUNABLE && !x.Map?
    ensures path != [] && Effective(fw, PutIn(data, path, x)) == Some(Put(Effective(fw, data).value, path, x))
  {
    TunableShape(path);
    ExpandedPut(data, path, x);
    MergedPut(Map(fw.defaults), Map(Expanded(data).value), path, x);
    hide Put, RolesOk, Section, Mergeable, Merged, Expanded;
    RolesStayOk(Loaded(fw.defaults, data), path, x);
  }

  // ---------------------------------------------------------------- what an edit does to the effective values

  lemma Kept(e: Value, path: Path, x: Value, q: Path)
    requires Diverge(path, q)
    ensures At(Put(e, path, x), q) == At(e, q) && ValueAt(Put(e, path, x), q) == ValueAt(e, q)
  {
    PutOther(e, path, x, q);
  }

  lemma Placed(e: Value, path: Path, x: Value)
    ensures At(Put(e, path, x), path) == Some(x) && ValueAt(Put(e, path, x), path) == x
  {
    PutSame(e, path, x);
  }

  lemma DivergeFirst(p: Path, q: Path)
    requires p != [] && q != [] && p[0] != q[0]
    ensures Diverge(p, q)
  {
  }

  lemma DivergeSecond(p: Path, q: Path)
    requires |p| > 1 && |q| > 1 && p[0] == q[0] && p[1] != q[1]
    ensures Diverge(p, q)
  {
    assert p[1..][0] == p[1] && q[1..][0] == q[1];
  }

  lemma DivergeThird(p: Path, q: Path)
    requires |p| > 2 && |q| > 2 && p[0] == q[0] && p[1] == q[1] && p[2] != q[2]
    ensures Diverge(p, q)
  {
    assert p[1..][0] == p[1] && q[1..][0] == q[1] && p[1..][1] == p[2] && q[1..][1] == q[2];
    DivergeSecond(p[1..], q[1..]);
  }

  /** An edit outside the agent section leaves the budgets alone. */
  lemma BudgetsKept(e: Value, path: Path, x: Value)
    requires path != [] && path[0] != "agent"
    ensures EffectiveBudget(Put(e, path, x), "max_steps", Int(10)) == EffectiveBudget(e, "max_steps", Int(10))
    ensures EffectiveBudget(Put(e, path, x), "max_cost_usd", Null) == EffectiveBudget(e, "max_cost_usd", Null)
  {
    hide Diverge, Put, At;
    forall field: string
      ensures ValueAt(Put(e, path, x), ["agent", "subagent", field]) == ValueAt(e, ["agent", "subagent", field])
      ensures ValueAt(Put(e, path, x), ["agent", field]) == ValueAt(e, ["agent", field])
    {
      DivergeFirst(path, ["agent", "subagent", field]);
      DivergeFirst(path, ["agent", field]);
      Kept(e, path, x, ["agent", "subagent", field]);
      Kept(e, path, x, ["agent", field]);
    }
  }

  /** An edit outside the memory section leaves retrieval alone; outside the tools section, the spawns. */
  lemma MemoryKept(e: Value, path: Path, x: Value)
    requires path != [] && path[0] != "memory"
    ensures ViewOf(Put(e, path, x)).topK == ViewOf(e).topK && ViewOf(Put(e, path, x)).strategy == ViewOf(e).strategy
  {
    hide EffectiveBudget;
    DivergeFirst(path, ["memory", "top_k"]);
    DivergeFirst(path, ["memory", "retrieval_strategy"]);
    Kept(e, path, x, ["memory", "top_k"]);
    Kept(e, path, x, ["memory", "retrieval_strategy"]);
  }

  lemma SpawnsKept(e: Value, path: Path, x: Value)
    requires path != [] && path[0] != "tools"
    ensures ViewOf(Put(e, path, x)).spawns == ViewOf(e).spawns
  {
    hide EffectiveBudget;
    DivergeFirst(path, ["tools", "max_parallel_spawns"]);
    Kept(e, path, x, ["tools", "max_parallel_spawns"]);
  }

  lemma LlmKept(e: Value, path: Path, x: Value)
    requires e.Map? && |path| > 1 && path[0] != "llm"
    ensures ViewOf(Put(e, path, x)).llm == ViewOf(e).llm
  {
    hide EffectiveBudget;
    SectionPut(e, path, x, "llm");
  }

  lemma ViewIs(e: Value)
    ensures ViewOf(e).steps == EffectiveBudget(e, "max_steps", Int(10))
    ensures ViewOf(e).cost == EffectiveBudget(e, "max_cost_usd", Null)
    ensures ViewOf(e).topK == ValueAt(e, ["memory", "top_k"])
    ensures ViewOf(e).strategy == ValueAt(e, ["memory", "retrieval_strategy"])
  {
  }

  lemma MemoryPut(e: Value, key: string, x: Value)
    requires e.Map? && key in {"top_k", "retrieval_strategy"}
    ensures ViewOf(Put(e, ["memory", key], x))
            == if key == "top_k" then ViewOf(e).(topK := x) else ViewOf(e).(strategy := x)
  {
    hide EffectiveBudget, ViewOf, Put, At, ValueAt, Section;
    var path, other: Path := ["memory", key], ["memory", if key == "top_k" then "retrieval_strategy" else "top_k"];
    ViewIs(e);
    ViewIs(Put(e, path, x));
    BudgetsKept(e, path, x);
    SpawnsKept(e, path, x);
    LlmKept(e, path, x);
    Placed(e, path, x);
    DivergeSecond(path, other);
    Kept(e, path, x, other);
  }

  lemma LlmPut(e: Value, path: Path, x: Value)
    requires e.Map? && |path| > 1 && path[0] == "llm" && Section(e, "llm").Some?
    ensures Put(Map(ViewOf(e).llm), path[1..], x).Map?
    ensures ViewOf(Put(e, path, x)) == ViewOf(e).(llm := Put(Map(ViewOf(e).llm), path[1..], x).entries)
  {
    SectionPut(e, path, x, "llm");
    assert ViewOf(e).llm == Section(e, "llm").value;
    var after := ViewOf(Put(e, path, x));
    assert after.llm == Put(Map(ViewOf(e).llm), path[1..], x).entries;
    hide EffectiveBudget, ViewOf, Put, At, ValueAt, Section;
    ViewIs(e);
    ViewIs(Put(e, path, x));
    BudgetsKept(e, path, x);
    MemoryKept(e, path, x);
    SpawnsKept(e, path, x);
  }

  lemma SpawnsPut(e: Value, x: Value)
    requires e.Map?
    ensures ViewOf(Put(e, ["tools", "max_parallel_spawns"], x)) == ViewOf(e).(spawns := x)
  {
    var path: Path := ["tools", "max_parallel_spawns"];
    Placed(e, path, x);
    assert ViewOf(Put(e, path, x)).spawns == x;
    hide EffectiveBudget, ViewOf, Put, At, ValueAt, Section;
    ViewIs(e);
    ViewIs(Put(e, path, x));
    BudgetsKept(e, path, x);
    MemoryKept(e, path, x);
    LlmKept(e, path, x);
  }

  /** New entries in the delegate list change no effective value. */
  lemma AgentsPut(e: Value, x: Value)
    requires e.Map?
    ensures ViewOf(Put(e, ["tools", "agents"], x)) == ViewOf(e)
  {
    var path: Path := ["tools", "agents"];
    DivergeSecond(path, ["tools", "max_parallel_spawns"]);
    Kept(e, path, x, ["tools", "max_parallel_spawns"]);
    assert ViewOf(Put(e, path, x)).spawns == ViewOf(e).spawns;
    hide EffectiveBudget, ViewOf, Put, At, ValueAt, Section;
    ViewIs(e);
    ViewIs(Put(e, path, x));
    BudgetsKept(e, path, x);
    MemoryKept(e, path, x);
    LlmKept(e, path, x);
  }

  // ---------------------------------------------------------------- budgets

  function BudgetDefault(field: string): Value {
    if field == "max_steps" then Int(10) else Null
  }

  function Budget(v: View, field: string): Value {
    if field == "max_steps" then v.steps else v.cost
  }

  function WithBudgetView(v: View, field: string, x: Value): View {
    if field == "max_steps" then v.(steps := x) else v.(cost := x)
  }

  predicate IsBudget(field: string) {
    field == "max_steps" || field == "max_cost_usd"
  }

  /** Setting one field's budget, with or without the override, leaves the other field's alone. */
  lemma OtherBudgetKept(e: Value, field: string, other: string, x: Value)
    requires IsBudget(field) && IsBudget(other) && field != other
    ensures EffectiveBudget(Put(e, ["agent", field], x), other, BudgetDefault(other))
            == EffectiveBudget(e, other, BudgetDefault(other))
    ensures EffectiveBudget(Put(e, ["agent", "subagent", field], x), other, BudgetDefault(other))
            == EffectiveBudget(e, other, BudgetDefault(other))
  {
    var own, over: Path := ["agent", field], ["agent", "subagent", field];
    var own', over': Path := ["agent", other], ["agent", "subagent", other];
    hide Diverge, Put, At;
    DivergeSecond(own, own');
    DivergeSecond(own, over');
    DivergeSecond(over, own');
    DivergeThird(over, over');
    Kept(e, own, x, own');
    Kept(e, own, x, over');
    Kept(e, over, x, own');
    Kept(e, over, x, over');
  }

  /** Without an override of its own, the node runs on the agent's budget. */
  lemma OwnBudget(e: Value, field: string, x: Value)
    requires IsBudget(field) && Number(x).Some? && ValueAt(e, ["agent", "subagent", field]) == Null
    ensures EffectiveBudget(Put(e, ["agent", field], x), field, BudgetDefault(field)) == x
  {
    var own, over: Path := ["agent", field], ["agent", "subagent", field];
    DivergeSecond(own, over);
    Kept(e, own, x, over);
    Placed(e, own, x);
  }

  /** The override decides where there is one. */
  lemma OverridingBudget(e: Value, field: string, x: Value)
    requires IsBudget(field) && Number(x).Some?
    ensures EffectiveBudget(Put(e, ["agent", "subagent", field], x), field, BudgetDefault(field)) == x
  {
    Placed(e, ["agent", "subagent", field], x);
  }

  /** One edit of the agent section: everything but the budgets is as before. */
  lemma AgentPut(e: Value, path: Path, x: Value)
    requires e.Map? && |path| > 1 && path[0] == "agent"
    ensures var v, after := ViewOf(e), ViewOf(Put(e, path, x));
            after == v.(steps := after.steps, cost := after.cost)
  {
    hide EffectiveBudget, ViewOf, Put, At, ValueAt, Section;
    ViewIs(e);
    ViewIs(Put(e, path, x));
    MemoryKept(e, path, x);
    SpawnsKept(e, path, x);
    LlmKept(e, path, x);
  }

  lemma BudgetIs(e: Value, field: string)
    requires IsBudget(field)
    ensures Budget(ViewOf(e), field) == EffectiveBudget(e, field, BudgetDefault(field))
  {
  }

  function OtherField(field: string): string {
    if field == "max_steps" then "max_cost_usd" else "max_steps"
  }

  lemma BudgetPut(e: Value, field: string, x: Value, over: bool)
    requires e.Map? && IsBudget(field) && Number(x).Some?
    requires !over ==> ValueAt(e, ["agent", "subagent", field]) == Null
    ensures var path := if over then ["agent", "subagent", field] else ["agent", field];
            ViewOf(Put(e, path, x)) == WithBudgetView(ViewOf(e), field, x)
  {
    var path := if over then ["agent", "subagent", field] else ["agent", field];
    var other := OtherField(field);
    hide EffectiveBudget, ViewOf, Put, At, ValueAt, BudgetDefault, Number;
    AgentPut(e, path, x);
    BudgetIs(e, other);
    BudgetIs(Put(e, path, x), field);
    BudgetIs(Put(e, path, x), other);
    OtherBudgetKept(e, field, other, x);
    if over {
      OverridingBudget(e, field, x);
    } else {
      OwnBudget(e, field, x);
    }
  }

  lemma ExpandedAt(user: map<string, Value>, path: Path)
    requires Expanded(user).Ok? && path != [] && path[0] != "memory"
    ensures At(Map(Expanded(user).value), path) == At(Map(user), path)
  {
    ExpandedUser(user);
    if Selected(user).Some? {
      ExpandedKeeps(user);
    }
  }

  lemma DeeperThanLeaf(v: Value, above: Path, rest: Path)
    requires rest != [] && !IsMapAt(v, above)
    ensures At(v, above + rest) == None
  {
    AtJoin(v, above, rest);
  }

  /** No override declared means none in effect. */
  lemma NoOverride(fw: Framework, data: map<string, Value>, field: string)
    requires IsFramework(fw) && Effective(fw, data).Some? && IsBudget(field) && !HasOverride(data)
    ensures ValueAt(Effective(fw, data).value, ["agent", "subagent", field]) == Null
  {
    var path: Path := ["agent", "subagent", field];
    assert path == ["agent", "subagent"] + [field];
    DeeperThanLeaf(Map(data), ["agent", "subagent"], [field]);
    ExpandedAt(data, path);
    Lookup(Map(fw.defaults), Map(Expanded(data).value), path);
  }

  lemma BudgetTunable(field: string)
    requires IsBudget(field)
    ensures ["agent", field] in TUNABLE && ["agent", "subagent", field] in TUNABLE
  {
  }

  lemma EffectiveIsMap(fw: Framework, data: map<string, Value>)
    requires Effective(fw, data).Some?
    ensures Effective(fw, data).value.Map? && Section(Effective(fw, data).value, "llm").Some?
    ensures RolesOk(Section(Effective(fw, data).value, "llm").value)
    ensures ViewOf(Effective(fw, data).value).llm == Section(Effective(fw, data).value, "llm").value
  {
    hide RolesOk, Merged;
  }

  /** Writing a budget makes it the effective one, and changes no other effective value. */
  lemma BudgetWritten(fw: Framework, data: map<string, Value>, field: string, x: Value)
    requires IsFramework(fw) && Effective(fw, data).Some? && IsBudget(field) && Number(x).Some?
    ensures Effective(fw, WithBudget(data, field, x)).Some?
    ensures ViewOf(Effective(fw, WithBudget(data, field, x)).value)
            == WithBudgetView(ViewOf(Effective(fw, data).value), field, x)
  {
    var e := Effective(fw, data).value;
    var first := PutIn(data, ["agent", field], x);
    hide Effective, IsFramework, ViewOf, EffectiveBudget, Put, ValueAt, HasOverride, RolesOk, Section;
    BudgetTunable(field);
    EffectivePut(fw, data, ["agent", field], x);
    EffectiveIsMap(fw, data);
    EffectiveIsMap(fw, first);
    if HasOverride(data) {
      EffectivePut(fw, first, ["agent", "subagent", field], x);
      AgentPut(e, ["agent", field], x);
      BudgetPut(Put(e, ["agent", field], x), field, x, true);
      OtherBudget(e, field, x);
    } else {
      NoOverride(fw, data, field);
      BudgetPut(e, field, x, false);
    }
  }

  lemma OtherBudget(e: Value, field: string, x: Value)
    requires IsBudget(field)
    ensures Budget(ViewOf(Put(e, ["agent", field], x)), OtherField(field)) == Budget(ViewOf(e), OtherField(field))
  {
    hide EffectiveBudget, ViewOf, Put, BudgetDefault;
    BudgetIs(e, OtherField(field));
    BudgetIs(Put(e, ["agent", field], x), OtherField(field));
    OtherBudgetKept(e, field, OtherField(field), x);
  }

  // ---------------------------------------------------------------- the tuned node

  predicate IsRole(role: string) {
    role in {"main", "decompose", "planner", "narrator"}
  }

  lemma ModelTunable(role: string)
    requires IsRole(role)
    ensures ModelPath(role) in TUNABLE && |ModelPath(role)| > 1 && ModelPath(role)[0] == "llm"
  {
  }

  /** The llm section once a role's model is set in it. */
  function WithModel(llm: map<string, Value>, role: string, model: string): map<string, Value> {
    if role == "main" then llm["model" := Text(model)]
    else llm[role := Map((if role in llm && llm[role].Map? then llm[role].entries else map[])["model" := Text(model)])]
  }

  lemma ModelPutIs(llm: map<string, Value>, role: string, model: string)
    requires IsRole(role)
    ensures Put(Map(llm), ModelPath(role)[1..], Text(model)) == Map(WithModel(llm, role, model))
  {
    if role == "main" {
      assert ModelPath(role)[1..] == ["model"];
      SingleKeyPut(llm, "model", Text(model));
    } else {
      assert ModelPath(role)[1..] == [role, "model"];
      LlmRolePut(llm, role, Text(model));
    }
  }

  /** A role set to a model runs on it. */
  lemma ModelRuns(fw: Framework, llm: map<string, Value>, role: string, model: string)
    requires IsRole(role) && model != "" && RolesOk(WithModel(llm, role, model))
    ensures RoleModel(fw, WithModel(llm, role, model), role) == Text(model)
    ensures Get(WithModel(llm, role, model), "max_tokens") == Get(llm, "max_tokens")
  {
  }

  lemma ModelWritten(fw: Framework, data: map<string, Value>, role: string, model: string)
    requires IsFramework(fw) && Effective(fw, data).Some? && IsRole(role) && model != ""
    ensures var data' := PutIn(data, ModelPath(role), Text(model));
            && Effective(fw, data').Some?
            && var v, v' := ViewOf(Effective(fw, data).value), ViewOf(Effective(fw, data').value);
               v' == v.(llm := WithModel(v.llm, role, model)) && RunsOn(fw, v', role, model)
               && Get(v'.llm, "max_tokens") == Get(v.llm, "max_tokens")
  {
    var e, path := Effective(fw, data).value, ModelPath(role);
    var data' := PutIn(data, path, Text(model));
    hide Effective, IsFramework, ViewOf, Put, RolesOk, Section, WithModel, RoleModel;
    ModelTunable(role);
    EffectivePut(fw, data, path, Text(model));
    EffectiveIsMap(fw, data);
    EffectiveIsMap(fw, data');
    LlmPut(e, path, Text(model));
    ModelPutIs(ViewOf(e).llm, role, model);
    ModelRuns(fw, ViewOf(e).llm, role, model);
  }

  lemma MemoryWritten(fw: Framework, data: map<string, Value>, key: string, x: Value)
    requires IsFramework(fw) && Effective(fw, data).Some? && key in {"top_k", "retrieval_strategy"} && !x.Map?
    ensures var data' := PutIn(data, ["memory", key], x);
            && Effective(fw, data').Some?
            && var v := ViewOf(Effective(fw, data).value);
               ViewOf(Effective(fw, data').value) == if key == "top_k" then v.(topK := x) else v.(strategy := x)
  {
    var path: Path := ["memory", key];
    assert path in TUNABLE;
    hide Effective, IsFramework, ViewOf, Put;
    EffectivePut(fw, data, path, x);
    EffectiveIsMap(fw, data);
    MemoryPut(Effective(fw, data).value, key, x);
  }

  lemma TokensWritten(fw: Framework, data: map<string, Value>, floor: int)
    requires IsFramework(fw) && Effective(fw, data).Some?
    ensures var data' := PutIn(data, ["llm", "max_tokens"], Int(floor));
            && Effective(fw, data').Some?
            && var v := ViewOf(Effective(fw, data).value);
               ViewOf(Effective(fw, data').value) == v.(llm := v.llm["max_tokens" := Int(floor)])
  {
    var path: Path := ["llm", "max_tokens"];
    assert path in TUNABLE && path[1..] == ["max_tokens"];
    hide Effective, IsFramework, ViewOf, Put, Section, RolesOk;
    EffectivePut(fw, data, path, Int(floor));
    EffectiveIsMap(fw, data);
    LlmPut(Effective(fw, data).value, path, Int(floor));
    SingleKeyPut(ViewOf(Effective(fw, data).value).llm, "max_tokens", Int(floor));
  }

  lemma SpawnsWritten(fw: Framework, data: map<string, Value>, spawns: int)
    requires IsFramework(fw) && Effective(fw, data).Some?
    ensures var data' := PutIn(data, ["tools", "max_parallel_spawns"], Int(spawns));
            && Effective(fw, data').Some?
            && ViewOf(Effective(fw, data').value) == ViewOf(Effective(fw, data).value).(spawns := Int(spawns))
  {
    var path: Path := ["tools", "max_parallel_spawns"];
    assert path in TUNABLE;
    hide Effective, IsFramework, ViewOf, Put;
    EffectivePut(fw, data, path, Int(spawns));
    EffectiveIsMap(fw, data);
    SpawnsPut(Effective(fw, data).value, Int(spawns));
  }

  /** The effective values of a tuned node: each knob that was needed is set, nothing else moves. */
  ghost predicate Tuned(fw: Framework, k: Knobs, v: View, v': View) {
    && v'.steps == (if StepsNeeded(v, k) then Int(k.stepBudget.value) else v.steps)
    && v'.cost == (if CostNeeded(v, k) then Float(k.costCeiling.value) else v.cost)
    && v'.topK == (if TopKNeeded(v, k) then Int(k.topK.value) else v.topK)
    && v'.strategy == (if StrategyNeeded(v, k) then Text(k.strategy.value) else v.strategy)
    && v'.spawns == v.spawns
    && Get(v'.llm, "max_tokens") == Get(v.llm, "max_tokens")
    && if ModelNeeded(fw, v, k) then RunsOn(fw, v', k.roleModel.value.0, k.roleModel.value.1) else v'.llm == v.llm
  }

  function TunedData(fw: Framework, k: Knobs, v: View, data: map<string, Value>): map<string, Value> {
    TunedModel(fw, v, k, TunedCost(v, k, TunedStrategy(v, k, TunedTopK(v, k, TunedSteps(v, k, data)))))
  }

  lemma TuneEffect(fw: Framework, k: Knobs, data: map<string, Value>)
    requires IsFramework(fw) && Bounded(k) && Effective(fw, data).Some?
    ensures var v := ViewOf(Effective(fw, data).value);
            && Effective(fw, TunedData(fw, k, v, data)).Some?
            && Tuned(fw, k, v, ViewOf(Effective(fw, TunedData(fw, k, v, data)).value))
  {
    hide Effective, IsFramework, ViewOf, WithBudget, PutIn, ModelPath, RunsOn, WithModel;
    var v := ViewOf(Effective(fw, data).value);
    var d1 := TunedSteps(v, k, data);
    if StepsNeeded(v, k) {
      BudgetWritten(fw, data, "max_steps", Int(k.stepBudget.value));
    }
    var d2 := TunedTopK(v, k, d1);
    if TopKNeeded(v, k) {
      MemoryWritten(fw, d1, "top_k", Int(k.topK.value));
    }
    var d3 := TunedStrategy(v, k, d2);
    if StrategyNeeded(v, k) {
      MemoryWritten(fw, d2, "retrieval_strategy", Text(k.strategy.value));
    }
    var d4 := TunedCost(v, k, d3);
    if CostNeeded(v, k) {
      BudgetWritten(fw, d3, "max_cost_usd", Float(k.costCeiling.value));
    }
    if ModelNeeded(fw, v, k) {
      ModelWritten(fw, d4, k.roleModel.value.0, k.roleModel.value.1);
    }
  }

  // ---------------------------------------------------------------- which way the values move

  /** Tuning never leaves a budget or top-k below its floor, nor a cost cap above its ceiling, and the
      role runs on the asked model. */
  lemma TunedMeets(fw: Framework, k: Knobs, v: View, v': View)
    requires Tuned(fw, k, v, v')
    ensures k.stepBudget.Some? ==> Reaches(v'.steps, k.stepBudget.value)
    ensures k.topK.Some? ==> Reaches(v'.topK, k.topK.value)
    ensures k.strategy.Some? ==> v'.strategy == Text(k.strategy.value)
    ensures k.costCeiling.Some? ==> CostWithin(v'.cost, k.costCeiling.value)
    ensures k.roleModel.Some? ==> RunsOn(fw, v', k.roleModel.value.0, k.roleModel.value.1)
    ensures !TuneNeeded(fw, v', k)
  {
    hide RunsOn;
    if k.roleModel.Some? && !ModelNeeded(fw, v, k) {
      SameLlm(fw, v, v', k.roleModel.value.0, k.roleModel.value.1);
    }
  }

  lemma SameLlm(fw: Framework, v: View, v': View, role: string, model: string)
    requires v.llm == v'.llm
    ensures RunsOn(fw, v, role, model) == RunsOn(fw, v', role, model)
  {
  }

  /** A number before, and a lower one or none after. */
  predicate WentDown(before: Value, after: Value) {
    Number(before).Some? && (Number(after).None? || Number(after).value < Number(before).value)
  }

  /** A number before, and a higher one or none after. */
  predicate WentUp(before: Value, after: Value) {
    Number(before).Some? && (Number(after).None? || Number(after).value > Number(before).value)
  }

  /** A number written as a float, above the floor asked for. */
  predicate FloatAbove(v: Value, floor: Option<int>) {
    floor.Some? && v.Float? && v.quantity > floor.value as real
  }

  /** A floor lowers a value exactly when it is a float above the floor: floats are always overwritten. The
      ceiling raises no cap. */
  lemma TunedMoves(fw: Framework, k: Knobs, v: View, v': View)
    requires Tuned(fw, k, v, v')
    ensures WentDown(v.steps, v'.steps) <==> FloatAbove(v.steps, k.stepBudget)
    ensures WentDown(v.topK, v'.topK) <==> FloatAbove(v.topK, k.topK)
    ensures !WentUp(v.cost, v'.cost)
  {
    hide RunsOn;
  }

  /** For instance a budget written as 50.0 comes down to 20. */
  lemma FloatBudgetComesDown(fw: Framework, k: Knobs)
    requires IsFramework(fw) && Bounded(k) && k.stepBudget == Some(20)
    requires Effective(fw, map["agent" := Map(map["max_steps" := Float(50.0)])]).Some?
    ensures var data := map["agent" := Map(map["max_steps" := Float(50.0)])];
            && ViewOf(Effective(fw, data).value).steps == Float(50.0)
            && TuneEdit(fw, k, data).Some? && TuneEdit(fw, k, data).value.Write?
            && Effective(fw, TuneEdit(fw, k, data).value.data).Some?
            && ViewOf(Effective(fw, TuneEdit(fw, k, data).value.data).value).steps == Int(20)
  {
    var data := map["agent" := Map(map["max_steps" := Float(50.0)])];
    hide Effective, IsFramework, ViewOf, TunedData, RunsOn, TuneEdit;
    ExampleSteps(fw, data);
    TuneEffect(fw, k, data);
    TuneWrites(fw, k, data);
  }

  lemma TuneWrites(fw: Framework, k: Knobs, data: map<string, Value>)
    requires Effective(fw, data).Some?
    ensures var v := ViewOf(Effective(fw, data).value);
            TuneEdit(fw, k, data) == Some(if TuneNeeded(fw, v, k) then Write(TunedData(fw, k, v, data)) else Keep)
  {
    hide Effective, ViewOf, TuneNeeded, TunedData;
  }

  /** A leaf of the file, profile keys aside, is effective. */
  lemma LeafLoaded(fw: Framework, data: map<string, Value>, path: Path)
    requires Effective(fw, data).Some? && path != [] && path[0] != "memory"
    requires At(Map(data), path).Some? && !At(Map(data), path).value.Map?
    ensures At(Effective(fw, data).value, path) == At(Map(data), path)
  {
    hide At, Merged, Mergeable, Expanded, Effective;
    EffectiveLayers(fw, data);
    ExpandedAt(data, path);
    Layering(Map(fw.defaults), Map(Expanded(data).value), path);
  }

  /** In a file of one section. */
  lemma FileLeaf(name: string, section: map<string, Value>, key: string)
    ensures At(Map(map[name := Map(section)]), [name, key]) == if key in section then Some(section[key]) else None
  {
    AtTwo(Map(map[name := Map(section)]), name, key);
    hide At;
  }

  lemma ExampleSteps(fw: Framework, data: map<string, Value>)
    requires IsFramework(fw) && Effective(fw, data).Some?
    requires data == map["agent" := Map(map["max_steps" := Float(50.0)])]
    ensures ViewOf(Effective(fw, data).value).steps == Float(50.0)
  {
    FileLeaf("agent", map["max_steps" := Float(50.0)], "max_steps");
    FileLeaf("agent", map["max_steps" := Float(50.0)], "subagent");
    assert !HasOverride(data);
    hide At, Effective, IsFramework, HasOverride;
    NoOverride(fw, data, "max_steps");
    LeafLoaded(fw, data, ["agent", "max_steps"]);
  }

  lemma ExampleSpawns(fw: Framework, data: map<string, Value>, delegate: Value)
    requires Effective(fw, data).Some?
    requires data == map["tools" := Map(map["agents" := List([delegate]), "max_parallel_spawns" := Float(8.0)])]
    ensures Spawner(data) && ViewOf(Effective(fw, data).value).spawns == Float(8.0)
  {
    var tools := map["agents" := List([delegate]), "max_parallel_spawns" := Float(8.0)];
    FileLeaf("tools", tools, "agents");
    FileLeaf("tools", tools, "max_parallel_spawns");
    hide At, Effective;
    LeafLoaded(fw, data, ["tools", "max_parallel_spawns"]);
  }

  /** Likewise a spawn limit written as 8.0 comes down to 4. */
  lemma FloatSpawnsComeDown(fw: Framework, k: Knobs, delegate: Value)
    requires IsFramework(fw) && k.maxSpawns == Some(4)
    requires Effective(fw, map["tools" := Map(map["agents" := List([delegate]),
                                                  "max_parallel_spawns" := Float(8.0)])]).Some?
    ensures var data := map["tools" := Map(map["agents" := List([delegate]), "max_parallel_spawns" := Float(8.0)])];
            && ViewOf(Effective(fw, data).value).spawns == Float(8.0)
            && SpawnEdit(fw, k, data).Some? && SpawnEdit(fw, k, data).value.Write?
            && Effective(fw, SpawnEdit(fw, k, data).value.data).Some?
            && ViewOf(Effective(fw, SpawnEdit(fw, k, data).value.data).value).spawns == Int(4)
  {
    var data := map["tools" := Map(map["agents" := List([delegate]), "max_parallel_spawns" := Float(8.0)])];
    hide At, Effective, IsFramework, Spawner, PutIn, ViewOf;
    ExampleSpawns(fw, data, delegate);
    SpawnsWritten(fw, data, 4);
  }

  /** And tokens written as 100.0 are left alone by a floor of 200. */
  lemma FloatTokensStay(fw: Framework, k: Knobs)
    requires IsFramework(fw) && k.tokenFloor == Some(200)
    requires Effective(fw, map["llm" := Map(map["max_tokens" := Float(100.0)])]).Some?
    ensures var data := map["llm" := Map(map["max_tokens" := Float(100.0)])];
            && FloorEdit(fw, k, data) == Some(Keep)
            && Get(ViewOf(Effective(fw, data).value).llm, "max_tokens") == Float(100.0)
  {
    var data := map["llm" := Map(map["max_tokens" := Float(100.0)])];
    var e := Effective(fw, data).value;
    FileLeaf("llm", map["max_tokens" := Float(100.0)], "max_tokens");
    AtTwo(e, "llm", "max_tokens");
    hide At, Effective, IsFramework, PutIn, ViewOf;
    EffectiveIsMap(fw, data);
    LeafLoaded(fw, data, ["llm", "max_tokens"]);
  }

  lemma EffectiveLayers(fw: Framework, data: map<string, Value>)
    requires Effective(fw, data).Some?
    ensures Expanded(data).Ok? && Mergeable(Map(fw.defaults), Map(Expanded(data).value))
    ensures Effective(fw, data).value == Merged(Map(fw.defaults), Map(Expanded(data).value))
  {
    hide Mergeable, Merged, Expanded, RolesOk;
  }

  // ---------------------------------------------------------------- timeouts

  /** One entry of the delegate list with its timeout raised to `t` if it is lower. */
  function RaisedEntry(entry: Value, t: real): Value {
    if !entry.Map? then entry
    else
      var current := if "timeout_s" in entry.entries then entry.entries["timeout_s"] else Float(120.0);
      if Number(current).Some? && Number(current).value >= t then entry
      else Map(entry.entries["timeout_s" := Float(t)])
  }

  /** The list with the entries in `done` raised. */
  function RaisedList(agents: seq<Value>, t: real, done: set<nat>): (r: seq<Value>)
    ensures |r| == |agents|
    ensures forall i :: 0 <= i < |r| ==> r[i] == if i in done then RaisedEntry(agents[i], t) else agents[i]
  {
    seq(|agents|, i requires 0 <= i < |agents| => if i in done then RaisedEntry(agents[i], t) else agents[i])
  }

  function RaisedData(data: map<string, Value>, t: real, done: set<nat>): map<string, Value> {
    if Spawner(data)
    then PutIn(data, ["tools", "agents"], List(RaisedList(At(Map(data), ["tools", "agents"]).value.items, t, done)))
    else data
  }

  lemma RaisedTwice(entry: Value, t: real)
    ensures RaisedEntry(RaisedEntry(entry, t), t) == RaisedEntry(entry, t)
  {
  }

  // ---------------------------------------------------------------- one node through all stages

  function Outcome(edit: Option<Edit>, data: map<string, Value>): map<string, Value> {
    match edit
    case Some(Write(written)) => written
    case _ => data
  }

  /** After a stage: still loadable, and its own question settled. */
  lemma FloorOutcome(fw: Framework, k: Knobs, data: map<string, Value>)
    requires IsFramework(fw) && Effective(fw, data).Some?
    ensures var after := Outcome(FloorEdit(fw, k, data), data);
            && Effective(fw, after).Some?
            && var v, v' := ViewOf(Effective(fw, data).value), ViewOf(Effective(fw, after).value);
               && v' == v.(llm := v'.llm)
               && (k.tokenFloor.Some? ==> !TokensLow(v', k.tokenFloor.value))
  {
    hide Effective, IsFramework, ViewOf, PutIn;
    if k.tokenFloor.Some? {
      TokensWritten(fw, data, k.tokenFloor.value);
    }
  }

  /** The token floor never lowers a value, and it is met afterwards exactly for whole numbers: a float,
      or no number at all, is left alone. */
  lemma TokensMove(fw: Framework, k: Knobs, data: map<string, Value>)
    requires IsFramework(fw) && Effective(fw, data).Some?
    ensures var after := Outcome(FloorEdit(fw, k, data), data);
            && Effective(fw, after).Some?
            && var before, now := Get(ViewOf(Effective(fw, data).value).llm, "max_tokens"),
                                  Get(ViewOf(Effective(fw, after).value).llm, "max_tokens");
               && !WentDown(before, now)
               && (k.tokenFloor.Some? ==> (Reaches(now, k.tokenFloor.value) <==> Whole(before).Some?))
  {
    hide Effective, IsFramework, ViewOf, PutIn;
    if k.tokenFloor.Some? {
      TokensWritten(fw, data, k.tokenFloor.value);
    }
  }

  lemma TuneOutcome(fw: Framework, k: Knobs, data: map<string, Value>)
    requires IsFramework(fw) && Bounded(k) && Effective(fw, data).Some?
    ensures var after := Outcome(TuneEdit(fw, k, data), data);
            && Effective(fw, after).Some?
            && Tuned(fw, k, ViewOf(Effective(fw, data).value), ViewOf(Effective(fw, after).value))
  {
    hide Effective, IsFramework, ViewOf, TunedData, RunsOn, TuneEdit;
    TuneWrites(fw, k, data);
    TuneEffect(fw, k, data);
  }

  /** The spawn limit after the spawn stage. */
  function LimitedSpawns(k: Knobs, spawns: Value, spawner: bool): (r: Value)
    ensures k.maxSpawns.Some? && spawner ==> Reaches(r, k.maxSpawns.value)
  {
    if k.maxSpawns.Some? && spawner && !Reaches(spawns, k.maxSpawns.value) then Int(k.maxSpawns.value) else spawns
  }

  lemma SpawnOutcome(fw: Framework, k: Knobs, data: map<string, Value>)
    requires IsFramework(fw) && Effective(fw, data).Some?
    ensures var after := Outcome(SpawnEdit(fw, k, data), data);
            && Effective(fw, after).Some?
            && var v := ViewOf(Effective(fw, data).value);
               ViewOf(Effective(fw, after).value) == v.(spawns := LimitedSpawns(k, v.spawns, Spawner(data)))
  {
    hide Effective, IsFramework, ViewOf, PutIn, Spawner;
    if k.maxSpawns.Some? {
      SpawnsWritten(fw, data, k.maxSpawns.value);
    }
  }

  lemma RaisedOutcome(fw: Framework, data: map<string, Value>, t: real, done: set<nat>)
    requires IsFramework(fw) && Effective(fw, data).Some?
    ensures Effective(fw, RaisedData(data, t, done)).Some?
    ensures ViewOf(Effective(fw, RaisedData(data, t, done)).value) == ViewOf(Effective(fw, data).value)
  {
    hide Effective, IsFramework, ViewOf, Put, Spawner;
    if Spawner(data) {
      SpawnerList(data);
      var x := List(RaisedList(At(Map(data), ["tools", "agents"]).value.items, t, done));
      assert ["tools", "agents"] in TUNABLE;
      EffectivePut(fw, data, ["tools", "agents"], x);
      EffectiveIsMap(fw, data);
      AgentsPut(Effective(fw, data).value, x);
    }
  }

  lemma SpawnerList(data: map<string, Value>)
    requires Spawner(data)
    ensures At(Map(data), ["tools", "agents"]).Some? && At(Map(data), ["tools", "agents"]).value.List?
  {
  }

  /** The stage questions depend on the effective values and on whether there are delegates. */
  lemma NothingLeft(fw: Framework, k: Knobs, data: map<string, Value>)
    requires Effective(fw, data).Some?
    ensures var v := ViewOf(Effective(fw, data).value);
            && (k.tokenFloor.Some? && !TokensLow(v, k.tokenFloor.value) ==> FloorEdit(fw, k, data) == Some(Keep))
            && (k.tokenFloor.None? ==> FloorEdit(fw, k, data) == Some(Keep))
            && (!TuneNeeded(fw, v, k) ==> TuneEdit(fw, k, data) == Some(Keep))
            && (k.maxSpawns.Some? && (Spawner(data) ==> Reaches(v.spawns, k.maxSpawns.value))
                ==> SpawnEdit(fw, k, data) == Some(Keep))
            && (k.maxSpawns.None? ==> SpawnEdit(fw, k, data) == Some(Keep))
  {
    hide Effective, ViewOf, TuneNeeded, TunedData, Spawner, PutIn;
  }

  // ---------------------------------------------------------------- the code's edits

  /** The section is there as a mapping, or not there at all. */
  predicate Editable(raw: map<string, Value>, section: string) {
    section in raw ==> raw[section].Map?
  }

  lemma EffectiveEditable(fw: Framework, data: map<string, Value>, section: string)
    requires IsFramework(fw) && Effective(fw, data).Some? && section in {"agent", "llm", "tools", "memory"}
    ensures Editable(data, section)
  {
    EffectiveLayers(fw, data);
    if section in data && !data[section].Map? {
      assert Expanded(data).value[section] == data[section] by {
        ExpandedUser(data);
        if Selected(data).Some? {
          ExpandedKeeps(data);
        }
      }
      AtOne(Map(fw.defaults), section);
      AtOne(Map(Expanded(data).value), section);
      ConflictBlocks(Map(fw.defaults), Map(Expanded(data).value), [section]);
    }
  }

  /** Sets one key of a section, which is made if it is missing. */
  method SetInSection(raw: map<string, Value>, name: string, key: string, x: Value) returns (r: map<string, Value>)
    requires Editable(raw, name)
    ensures r == PutIn(raw, [name, key], x)
    ensures forall other :: Editable(raw, other) ==> Editable(r, other)
  {
    var section: map<string, Value> := if name in raw then raw[name].entries else map[];
    section := section[key := x];
    r := raw[name := Map(section)];
    SetInPath(raw, name, key, x);
  }

  lemma SetInPath(raw: map<string, Value>, name: string, key: string, x: Value)
    requires Editable(raw, name)
    ensures PutIn(raw, [name, key], x)
            == raw[name := Map((if name in raw then raw[name].entries else map[])[key := x])]
  {
    assert [name, key] == [name] + [key];
    PutKey(Map(raw), name, [key], x);
    SingleKeyPut(if name in raw then raw[name].entries else map[], key, x);
  }

  /** Sets a budget, and the declared sub-agent override with it. */
  method WriteAgentBudget(raw: map<string, Value>, field: string, x: Value) returns (r: map<string, Value>)
    requires Editable(raw, "agent") && field != "subagent"
    ensures r == WithBudget(raw, field, x)
    ensures forall other :: Editable(raw, other) ==> Editable(r, other)
  {
    r := SetInSection(raw, "agent", field, x);
    AgentSection(raw, field, x);
    var agent := r["agent"].entries;
    if "subagent" in agent && agent["subagent"].Map? {
      var subagent := agent["subagent"].entries;
      subagent := subagent[field := x];
      agent := agent["subagent" := Map(subagent)];
      r := r["agent" := Map(agent)];
    }
  }

  lemma AgentSection(raw: map<string, Value>, field: string, x: Value)
    requires Editable(raw, "agent") && field != "subagent"
    ensures var own := PutIn(raw, ["agent", field], x);
            && "agent" in own && own["agent"].Map?
            && var agent := own["agent"].entries;
               && (HasOverride(raw) <==> "subagent" in agent && agent["subagent"].Map?)
               && (HasOverride(raw) ==> WithBudget(raw, field, x)
                                        == own["agent" := Map(agent["subagent" :=
                                             Map(agent["subagent"].entries[field := x])])])
  {
    SetInPath(raw, "agent", field, x);
    AtTwo(Map(raw), "agent", "subagent");
    var own := PutIn(raw, ["agent", field], x);
    var agent := own["agent"].entries;
    assert ["agent", "subagent", field] == ["agent"] + ["subagent", field];
    assert ["subagent", field] == ["subagent"] + [field];
    PutKey(Map(own), "agent", ["subagent", field], x);
    PutKey(Map(agent), "subagent", [field], x);
    if HasOverride(raw) {
      SingleKeyPut(agent["subagent"].entries, field, x);
    }
    hide Put, At;
  }

  /** Sets the model of a role; a role entry that is no mapping is replaced by one. */
  method WriteRoleModel(raw: map<string, Value>, role: string, model: string) returns (r: map<string, Value>)
    requires Editable(raw, "llm")
    ensures r == PutIn(raw, ModelPath(role), Text(model))
  {
    if role == "main" {
      r := SetInSection(raw, "llm", "model", Text(model));
    } else {
      var llm: map<string, Value> := if "llm" in raw then raw["llm"].entries else map[];
      var entry: map<string, Value> := if role in llm && llm[role].Map? then llm[role].entries else map[];
      entry := entry["model" := Text(model)];
      llm := llm[role := Map(entry)];
      r := raw["llm" := Map(llm)];
      RolePath(raw, role, Text(model));
    }
  }

  lemma RolePath(raw: map<string, Value>, role: string, x: Value)
    requires Editable(raw, "llm")
    ensures var llm := if "llm" in raw then raw["llm"].entries else map[];
            PutIn(raw, ["llm", role, "model"], x)
            == raw["llm" := Map(llm[role := Map(
                                 (if role in llm && llm[role].Map? then llm[role].entries else map[])["model" := x])])]
  {
    assert ["llm", role, "model"] == ["llm"] + [role, "model"];
    PutKey(Map(raw), "llm", [role, "model"], x);
    LlmRolePut(if "llm" in raw then raw["llm"].entries else map[], role, x);
    hide Put;
  }

  /** Turns the needed knobs of one node, on a copy that is loaded only when something is needed. */
  method TuneNode(fw: Framework, k: Knobs, data: map<string, Value>) returns (r: Option<Edit>)
    requires IsFramework(fw)
    ensures r == TuneEdit(fw, k, data)
  {
    hide Effective, ViewOf, RunsOn, WithBudget, PutIn, Reaches, CostWithin, IsFramework, Editable, ModelPath;
    var e := Effective(fw, data);
    if e.None? {
      return None;
    }
    var v := ViewOf(e.value);
    EffectiveEditable(fw, data, "agent");
    EffectiveEditable(fw, data, "memory");
    EffectiveEditable(fw, data, "llm");
    var raw, touched := data, false;
    if k.stepBudget.Some? && !Reaches(v.steps, k.stepBudget.value) {
      raw := WriteAgentBudget(raw, "max_steps", Int(k.stepBudget.value));
      touched := true;
    }
    if k.topK.Some? && !Reaches(v.topK, k.topK.value) {
      raw := SetInSection(raw, "memory", "top_k", Int(k.topK.value));
      touched := true;
    }
    if k.strategy.Some? && v.strategy != Text(k.strategy.value) {
      raw := SetInSection(raw, "memory", "retrieval_strategy", Text(k.strategy.value));
      touched := true;
    }
    if k.costCeiling.Some? && !CostWithin(v.cost, k.costCeiling.value) {
      raw := WriteAgentBudget(raw, "max_cost_usd", Float(k.costCeiling.value));
      touched := true;
    }
    if k.roleModel.Some? && !RunsOn(fw, v, k.roleModel.value.0, k.roleModel.value.1) {
      raw := WriteRoleModel(raw, k.roleModel.value.0, k.roleModel.value.1);
      touched := true;
    }
    r := Some(if touched then Write(raw) else Keep);
  }

  /** Raises the tokens of one node's main role. */
  method FloorNode(fw: Framework, k: Knobs, data: map<string, Value>) returns (r: Option<Edit>)
    requires IsFramework(fw)
    ensures r == FloorEdit(fw, k, data)
  {
    hide Effective, ViewOf, PutIn, IsFramework, Editable;
    if k.tokenFloor.None? {
      return Some(Keep);
    }
    var e := Effective(fw, data);
    if e.None? {
      return None;
    }
    if !TokensLow(ViewOf(e.value), k.tokenFloor.value) {
      return Some(Keep);
    }
    EffectiveEditable(fw, data, "llm");
    var raw := SetInSection(data, "llm", "max_tokens", Int(k.tokenFloor.value));
    r := Some(Write(raw));
  }

  /** Raises the spawn limit of one node that has delegates. */
  method SpawnNode(fw: Framework, k: Knobs, data: map<string, Value>) returns (r: Option<Edit>)
    requires IsFramework(fw)
    ensures r == SpawnEdit(fw, k, data)
  {
    hide Effective, ViewOf, PutIn, IsFramework, Editable, Spawner;
    if k.maxSpawns.None? || !Spawner(data) {
      return Some(Keep);
    }
    var e := Effective(fw, data);
    if e.None? {
      return None;
    }
    if Reaches(ViewOf(e.value).spawns, k.maxSpawns.value) {
      return Some(Keep);
    }
    EffectiveEditable(fw, data, "tools");
    var raw := SetInSection(data, "tools", "max_parallel_spawns", Int(k.maxSpawns.value));
    r := Some(Write(raw));
  }
}
