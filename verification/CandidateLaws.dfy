/** What a candidate is allowed to ask for, what is effective in a loaded config, and what a settled company
    looks like, in terms of the values themselves. */
module CandidateLaws {
  import opened Options
  import opened ConfigValue
  import opened ConfigMerge
  import opened CompanyWalk
  import opened Candidate
  import opened CandidateRun

  // ---------------------------------------------------------------- the bounds

  const NOTHING := Knobs(None, None, None, None, None, None, None, None)

  /** A candidate keeps its bounds if each thing it asks for does, and these are the bounds of each. */
  lemma BoundsExactly(k: Knobs)
    ensures Bounded(k)
            <==> && Bounded(NOTHING.(tokenFloor := k.tokenFloor)) && Bounded(NOTHING.(stepBudget := k.stepBudget))
                 && Bounded(NOTHING.(topK := k.topK)) && Bounded(NOTHING.(strategy := k.strategy))
                 && Bounded(NOTHING.(costCeiling := k.costCeiling)) && Bounded(NOTHING.(roleModel := k.roleModel))
                 && Bounded(NOTHING.(maxSpawns := k.maxSpawns)) && Bounded(NOTHING.(timeout := k.timeout))
    ensures Bounded(NOTHING)
    ensures forall n: int :: Bounded(NOTHING.(tokenFloor := Some(n))) <==> n in {64, 4096} || 64 < n < 4096
    ensures forall n: int :: Bounded(NOTHING.(stepBudget := Some(n))) <==> n in {1, 200} || 1 < n < 200
    ensures forall n: int :: Bounded(NOTHING.(topK := Some(n))) <==> n in {1, 50} || 1 < n < 50
    ensures forall n: int :: Bounded(NOTHING.(maxSpawns := Some(n))) <==> n in {1, 64} || 1 < n < 64
    ensures forall r: real :: Bounded(NOTHING.(costCeiling := Some(r))) <==> r == 10.0 || 0.0 < r < 10.0
    ensures forall r: real :: Bounded(NOTHING.(timeout := Some(r))) <==> r == 1.0 || r == 3600.0 || 1.0 < r < 3600.0
    ensures forall s: string :: Bounded(NOTHING.(strategy := Some(s)))
                                <==> s == "dense" || s == "sparse" || s == "hybrid" || s == "hybrid+mmr"
    ensures forall role: string, model: string :: Bounded(NOTHING.(roleModel := Some((role, model))))
              <==> IsRole(role) && model != ""
  {
  }

  // ---------------------------------------------------------------- what is effective

  /** The value stands at the place. */
  predicate Stands(e: Value, path: Path, v: Value) {
    At(e, path) == Some(v)
  }

  predicate Numeric(v: Value) {
    v.Int? || v.Float? || v.Bool?
  }

  /** A sub-agent's budget: its own entry before the agent's, and the default for what is no number. */
  lemma BudgetIs(e: Value, field: string, default: Value, own: Value, agents: Value)
    ensures Stands(e, ["agent", "subagent", field], own) && own != Null
            ==> EffectiveBudget(e, field, default) == if Numeric(own) then own else default
    ensures (At(e, ["agent", "subagent", field]) == None || Stands(e, ["agent", "subagent", field], Null))
            && Stands(e, ["agent", field], agents)
            ==> EffectiveBudget(e, field, default) == if Numeric(agents) then agents else default
    ensures (At(e, ["agent", "subagent", field]) == None || Stands(e, ["agent", "subagent", field], Null))
            && At(e, ["agent", field]) == None
            ==> EffectiveBudget(e, field, default) == default
  {
    hide At;
  }

  /** Where the viewed values stand, and what is effective without one. */
  lemma ViewIs(e: Value, v: Value)
    ensures ViewOf(e).steps == EffectiveBudget(e, "max_steps", Int(10))
    ensures ViewOf(e).cost == EffectiveBudget(e, "max_cost_usd", Null)
    ensures Stands(e, ["memory", "top_k"], v) ==> ViewOf(e).topK == v
    ensures Stands(e, ["memory", "retrieval_strategy"], v) ==> ViewOf(e).strategy == v
    ensures Stands(e, ["tools", "max_parallel_spawns"], v) ==> ViewOf(e).spawns == v
    ensures At(e, ["tools", "max_parallel_spawns"]) == None ==> ViewOf(e).spawns == Int(4)
    ensures Stands(e, ["llm", "max_tokens"], v) ==> Get(ViewOf(e).llm, "max_tokens") == v
  {
    AtTwo(e, "llm", "max_tokens");
    hide At, EffectiveBudget;
  }

  /** The llm section's own entry for a role, or a mapping made of the older flat model key. */
  predicate HasEntry(llm: map<string, Value>, role: string, entry: Value) {
    if role in llm && llm[role] != Null then entry == llm[role]
    else
      var key := role + "_model";
      if role in {"decompose", "narrator"} && key in llm && !Falsy(llm[key])
      then entry == Map(map["model" := llm[key]])
      else entry == Null
  }

  predicate Named(m: map<string, Value>, model: Value) {
    "model" in m && m["model"] == model && !Falsy(model)
  }

  /** The main role runs on the section's model; a role without an entry is off; a text is a model, a mapping may
      name one, and what names none runs on the main model. The narrator is cheaper: without a model key it runs on
      its provider's small model, where there is one. */
  lemma RoleModelIs(fw: Framework, llm: map<string, Value>, role: string, entry: Value, model: Value)
    requires RolesOk(llm) && role in {"decompose", "planner", "narrator"} && HasEntry(llm, role, entry)
    ensures RoleModel(fw, llm, "main") == Get(llm, "model")
    ensures entry == Null ==> RoleModel(fw, llm, role) == Null
    ensures entry.Text? && entry.text != "" ==> RoleModel(fw, llm, role) == entry
    ensures entry == Text("") ==> RoleModel(fw, llm, role) == Get(llm, "model")
    ensures entry.Map? && Named(entry.entries, model) ==> RoleModel(fw, llm, role) == model
    ensures entry.Map? && Get(entry.entries, "model") != Null && Falsy(Get(entry.entries, "model"))
            ==> RoleModel(fw, llm, role) == Get(llm, "model")
    ensures entry.Map? && Get(entry.entries, "model") == Null && role != "narrator"
            ==> RoleModel(fw, llm, role) == Get(llm, "model")
    ensures entry.Map? && Get(entry.entries, "model") == Null && role == "narrator"
            ==> RoleModel(fw, llm, role)
                == Narration(Provider(fw, entry.entries, Provider(fw, llm, "gemini")), Get(llm, "model"))
  {
  }

  /** The small models for narration. */
  function Narration(provider: string, main: Value): Value {
    if provider == "gemini" then Text("gemini-2.5-flash-lite")
    else if provider == "anthropic" then Text("claude-haiku-4-5")
    else if provider == "openai" then Text("gpt-5-nano")
    else if provider == "openrouter" then Text("google/gemini-2.5-flash-lite")
    else main
  }

  /** A node with delegates. */
  lemma SpawnerExactly(data: map<string, Value>)
    ensures Spawner(data)
            <==> && "tools" in data && data["tools"].Map?
                 && "agents" in data["tools"].entries && data["tools"].entries["agents"].List?
                 && |data["tools"].entries["agents"].items| > 0
  {
    AtTwo(Map(data), "tools", "agents");
    hide At;
  }

  // ---------------------------------------------------------------- a settled node

  /** A whole number that is no lower; true and false are 1 and 0. */
  predicate AtLeast(v: Value, n: int) {
    || (v.Int? && v.number >= n)
    || (v == Bool(true) && 1 >= n)
    || (v == Bool(false) && 0 >= n)
  }

  predicate AtMost(v: Value, r: real) {
    || (v.Int? && v.number as real <= r)
    || (v.Float? && v.quantity <= r)
    || (v == Bool(true) && 1.0 <= r)
    || (v == Bool(false) && 0.0 <= r)
  }

  /** What it means that a node meets a candidate. */
  lemma MeetsExactly(fw: Framework, k: Knobs, data: map<string, Value>)
    requires Meets(fw, k, data)
    ensures Effective(fw, data).Some?
    ensures var v := ViewOf(Effective(fw, data).value);
            && (forall n :: k.tokenFloor == Some(n) && (Get(v.llm, "max_tokens").Int? || Get(v.llm, "max_tokens").Bool?)
                            ==> AtLeast(Get(v.llm, "max_tokens"), n))
            && (forall n :: k.stepBudget == Some(n) ==> AtLeast(v.steps, n))
            && (forall n :: k.topK == Some(n) ==> AtLeast(v.topK, n))
            && (forall s :: k.strategy == Some(s) ==> v.strategy == Text(s))
            && (forall r :: k.costCeiling == Some(r) ==> AtMost(v.cost, r))
            && (forall role, model :: k.roleModel == Some((role, model))
                                      ==> RolesOk(v.llm) && RoleModel(fw, v.llm, role) == Text(model))
            && (forall n :: k.maxSpawns == Some(n) && Spawner(data) ==> AtLeast(v.spawns, n))
  {
    hide Effective, ViewOf, Spawner, RoleModel, RolesOk;
  }
}
