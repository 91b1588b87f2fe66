/** Layered configuration: the recursive merge of an override onto a base, the memory profile, and
    their composition when a config is loaded. */
module ConfigMerge {
  import opened Options
  import opened ConfigValue

  datatype ConfigError =
    | TopLevelNotMapping
    | NotAMapping(path: Path)
    | UnknownProfile(profile: Value)

  // ---------------------------------------------------------------- the merge

  /** No mapping of the base is overridden with something that is not a mapping. */
  predicate Mergeable(base: Value, over: Value)
    decreases over
  {
    base.Map? ==>
      && over.Map?
      && forall k :: k in over.entries && k in base.entries ==> Mergeable(base.entries[k], over.entries[k])
  }

  /** What an accepted merge gives: mappings key by key, anything else from the override. */
  function Merged(base: Value, over: Value): Value
    decreases over
  {
    if base.Map? && over.Map?
    then Map(map k | k in base.entries.Keys + over.entries.Keys ::
               if k !in over.entries then base.entries[k]
               else if k in base.entries then Merged(base.entries[k], over.entries[k])
               else over.entries[k])
    else over
  }

  /** One key of a merge of mappings. */
  lemma MergedAt(base: Value, over: Value, k: string)
    requires base.Map? && over.Map?
    ensures Merged(base, over).Map?
    ensures k in Merged(base, over).entries <==> k in base.entries || k in over.entries
    ensures k in base.entries && k !in over.entries ==> Merged(base, over).entries[k] == base.entries[k]
    ensures k in over.entries && k !in base.entries ==> Merged(base, over).entries[k] == over.entries[k]
    ensures k in over.entries && k in base.entries
            ==> Merged(base, over).entries[k] == Merged(base.entries[k], over.entries[k])
  {
  }

  /** A path at which the override would replace a mapping with something else. */
  predicate Conflict(base: Value, over: Value, path: Path) {
    && At(base, path).Some? && At(base, path).value.Map?
    && At(over, path).Some? && !At(over, path).value.Map?
  }

  /** The merge is refused exactly when there is such a path. */
  lemma {:induction false} ConflictBlocks(base: Value, over: Value, path: Path)
    requires Conflict(base, over, path)
    ensures !Mergeable(base, over)
    decreases |path|
  {
    if path != [] {
      var k := path[0];
      ConflictBlocks(base.entries[k], over.entries[k], path[1..]);
    }
  }

  lemma {:induction false} ConflictFound(base: Value, over: Value) returns (path: Path)
    requires !Mergeable(base, over)
    ensures Conflict(base, over, path)
    decreases over
  {
    if over.Map? {
      var k :| k in over.entries && k in base.entries && !Mergeable(base.entries[k], over.entries[k]);
      var rest := ConflictFound(base.entries[k], over.entries[k]);
      path := [k] + rest;
      ConflictDeeper(base, over, k, rest);
    } else {
      path := [];
    }
  }

  lemma ConflictDeeper(base: Value, over: Value, k: string, rest: Path)
    requires base.Map? && over.Map? && k in base.entries && k in over.entries
    ensures Conflict(base, over, [k] + rest) <==> Conflict(base.entries[k], over.entries[k], rest)
  {
    assert ([k] + rest)[1..] == rest;
  }

  /** Refusal, exactly. */
  lemma RefusedIffConflict(base: Value, over: Value)
    ensures !Mergeable(base, over) <==> exists path :: Conflict(base, over, path)
  {
    if !Mergeable(base, over) {
      var path := ConflictFound(base, over);
    }
    forall path | Conflict(base, over, path)
      ensures !Mergeable(base, over)
    {
      ConflictBlocks(base, over, path);
    }
  }

  // ---------------------------------------------------------------- what the merged config holds

  /** Every path of the merged config: from the base where the override says nothing, else the override
      laid over whatever the base has there. */
  lemma {:induction false} Lookup(base: Value, over: Value, path: Path)
    requires Mergeable(base, over)
    ensures At(over, path).None? ==> At(Merged(base, over), path) == At(base, path)
    ensures At(over, path).Some? && At(base, path).None? ==> At(Merged(base, over), path) == At(over, path)
    ensures At(over, path).Some? && At(base, path).Some?
            ==> At(Merged(base, over), path) == Some(Merged(At(base, path).value, At(over, path).value))
    decreases |path|
  {
    if path != [] && base.Map? {
      var k := path[0];
      MergedAt(base, over, k);
      if k in base.entries && k in over.entries {
        Lookup(base.entries[k], over.entries[k], path[1..]);
      }
    }
  }

  /** A leaf of the override wins; a leaf of the base survives where the override is silent; a mapping
      of the base stays a mapping. */
  lemma Layering(base: Value, over: Value, path: Path)
    requires Mergeable(base, over)
    ensures At(over, path).Some? && !At(over, path).value.Map? ==> At(Merged(base, over), path) == At(over, path)
    ensures At(over, path).None? ==> At(Merged(base, over), path) == At(base, path)
    ensures At(base, path).Some? && At(base, path).value.Map?
            ==> At(Merged(base, over), path).Some? && At(Merged(base, over), path).value.Map?
  {
    Lookup(base, over, path);
    if At(base, path).Some? && At(base, path).value.Map? && At(over, path).Some? {
      if !At(over, path).value.Map? {
        ConflictBlocks(base, over, path);
      }
    }
  }

  // ---------------------------------------------------------------- grouping layers

  /** One key of a mapping, present or not, and the merge seen at one key. */
  function Key(m: Value, k: string): Option<Value> {
    if m.Map? && k in m.entries then Some(m.entries[k]) else None
  }

  predicate KeyMergeable(x: Option<Value>, y: Option<Value>) {
    x.Some? && y.Some? ==> Mergeable(x.value, y.value)
  }

  function KeyMerged(x: Option<Value>, y: Option<Value>): Option<Value> {
    if y.None? then x else if x.None? then y else Some(Merged(x.value, y.value))
  }

  ghost predicate AllKeysMergeable(a: Value, b: Value) {
    forall k: string :: KeyMergeable(Key(a, k), Key(b, k))
  }

  lemma MergeableByKey(a: Value, b: Value)
    requires a.Map? && b.Map?
    ensures Mergeable(a, b) <==> AllKeysMergeable(a, b)
  {
    if Mergeable(a, b) {
      forall k: string ensures KeyMergeable(Key(a, k), Key(b, k)) {
      }
    }
    if AllKeysMergeable(a, b) {
      forall k | k in b.entries && k in a.entries ensures Mergeable(a.entries[k], b.entries[k]) {
        assert KeyMergeable(Key(a, k), Key(b, k));
      }
    }
  }

  lemma MergedByKey(a: Value, b: Value, k: string)
    requires a.Map? && b.Map?
    ensures Merged(a, b).Map? && Key(Merged(a, b), k) == KeyMerged(Key(a, k), Key(b, k))
  {
    MergedAt(a, b, k);
  }

  lemma SameKeys(a: Value, b: Value)
    requires a.Map? && b.Map?
    requires forall k: string :: Key(a, k) == Key(b, k)
    ensures a == b
  {
    forall k: string ensures k in a.entries <==> k in b.entries {
      assert Key(a, k) == Key(b, k);
    }
    forall k | k in a.entries ensures a.entries[k] == b.entries[k] {
      assert Key(a, k) == Key(b, k);
    }
    assert a.entries == b.entries;
  }

  predicate LeftAccepted(a: Value, b: Value, c: Value) {
    Mergeable(a, b) && Mergeable(Merged(a, b), c)
  }

  predicate RightAccepted(a: Value, b: Value, c: Value) {
    Mergeable(b, c) && Mergeable(a, Merged(b, c))
  }

  predicate KeyLeft(x: Option<Value>, y: Option<Value>, z: Option<Value>) {
    KeyMergeable(x, y) && KeyMergeable(KeyMerged(x, y), z)
  }

  predicate KeyRight(x: Option<Value>, y: Option<Value>, z: Option<Value>) {
    KeyMergeable(y, z) && KeyMergeable(x, KeyMerged(y, z))
  }

  lemma LeftByKey(a: Value, b: Value, c: Value)
    requires a.Map? && b.Map? && c.Map?
    ensures LeftAccepted(a, b, c) <==> forall k: string :: KeyLeft(Key(a, k), Key(b, k), Key(c, k))
  {
    MergeableByKey(a, b);
    assert Merged(a, b).Map?;
    MergeableByKey(Merged(a, b), c);
    forall k: string ensures Key(Merged(a, b), k) == KeyMerged(Key(a, k), Key(b, k)) {
      MergedByKey(a, b, k);
    }
    hide Mergeable, Merged, KeyMerged, Key, KeyMergeable;
    if LeftAccepted(a, b, c) {
      forall k: string ensures KeyLeft(Key(a, k), Key(b, k), Key(c, k)) {
        assert KeyMergeable(Key(a, k), Key(b, k)) && KeyMergeable(Key(Merged(a, b), k), Key(c, k));
      }
    }
    if forall k: string :: KeyLeft(Key(a, k), Key(b, k), Key(c, k)) {
      forall k: string
        ensures KeyMergeable(Key(a, k), Key(b, k)) && KeyMergeable(Key(Merged(a, b), k), Key(c, k))
      {
        assert KeyLeft(Key(a, k), Key(b, k), Key(c, k));
      }
    }
  }

  lemma RightByKey(a: Value, b: Value, c: Value)
    requires a.Map? && b.Map? && c.Map?
    ensures RightAccepted(a, b, c) <==> forall k: string :: KeyRight(Key(a, k), Key(b, k), Key(c, k))
  {
    MergeableByKey(b, c);
    assert Merged(b, c).Map?;
    MergeableByKey(a, Merged(b, c));
    forall k: string ensures Key(Merged(b, c), k) == KeyMerged(Key(b, k), Key(c, k)) {
      MergedByKey(b, c, k);
    }
    hide Mergeable, Merged, KeyMerged, Key, KeyMergeable;
    if RightAccepted(a, b, c) {
      forall k: string ensures KeyRight(Key(a, k), Key(b, k), Key(c, k)) {
        assert KeyMergeable(Key(b, k), Key(c, k)) && KeyMergeable(Key(a, k), Key(Merged(b, c), k));
      }
    }
    if forall k: string :: KeyRight(Key(a, k), Key(b, k), Key(c, k)) {
      forall k: string
        ensures KeyMergeable(Key(b, k), Key(c, k)) && KeyMergeable(Key(a, k), Key(Merged(b, c), k))
      {
        assert KeyRight(Key(a, k), Key(b, k), Key(c, k));
      }
    }
  }

  /** Merging from the left is accepted exactly when merging from the right is and the first two layers
      also merge on their own; then both give the same config. */
  lemma {:induction false} Regrouped(a: Value, b: Value, c: Value)
    ensures LeftAccepted(a, b, c) <==> Mergeable(a, b) && RightAccepted(a, b, c)
    ensures LeftAccepted(a, b, c) ==> Merged(Merged(a, b), c) == Merged(a, Merged(b, c))
    decreases c
  {
    if a.Map? && b.Map? && c.Map? {
      forall k: string
        ensures var x, y, z := Key(a, k), Key(b, k), Key(c, k);
                && (KeyLeft(x, y, z) <==> KeyMergeable(x, y) && KeyRight(x, y, z))
                && (KeyLeft(x, y, z) ==> KeyMerged(KeyMerged(x, y), z) == KeyMerged(x, KeyMerged(y, z)))
      {
        if k in a.entries && k in b.entries && k in c.entries {
          Regrouped(a.entries[k], b.entries[k], c.entries[k]);
        }
      }
      RegroupedMaps(a, b, c);
    } else {
      assert !a.Map? ==> Mergeable(a, b);
    }
  }

  lemma RegroupedMaps(a: Value, b: Value, c: Value)
    requires a.Map? && b.Map? && c.Map?
    requires forall k: string ::
               var x, y, z := Key(a, k), Key(b, k), Key(c, k);
               && (KeyLeft(x, y, z) <==> KeyMergeable(x, y) && KeyRight(x, y, z))
               && (KeyLeft(x, y, z) ==> KeyMerged(KeyMerged(x, y), z) == KeyMerged(x, KeyMerged(y, z)))
    ensures LeftAccepted(a, b, c) <==> Mergeable(a, b) && RightAccepted(a, b, c)
    ensures LeftAccepted(a, b, c) ==> Merged(Merged(a, b), c) == Merged(a, Merged(b, c))
  {
    LeftByKey(a, b, c);
    RightByKey(a, b, c);
    MergeableByKey(a, b);
    assert Merged(a, b).Map? && Merged(b, c).Map?;
    var left, right := Merged(Merged(a, b), c), Merged(a, Merged(b, c));
    assert left.Map? && right.Map?;
    forall k: string
      ensures Key(left, k) == KeyMerged(KeyMerged(Key(a, k), Key(b, k)), Key(c, k))
      ensures Key(right, k) == KeyMerged(Key(a, k), KeyMerged(Key(b, k), Key(c, k)))
    {
      MergedByKey(a, b, k);
      MergedByKey(b, c, k);
      MergedByKey(Merged(a, b), c, k);
      MergedByKey(a, Merged(b, c), k);
    }
    hide Mergeable, Merged, KeyMerged, Key, KeyMergeable, LeftAccepted, RightAccepted, KeyLeft, KeyRight;
    if LeftAccepted(a, b, c) {
      forall k: string ensures Key(left, k) == Key(right, k) {
        assert KeyLeft(Key(a, k), Key(b, k), Key(c, k));
      }
      SameKeys(left, right);
    }
    forall k: string
      ensures KeyLeft(Key(a, k), Key(b, k), Key(c, k))
              <==> KeyMergeable(Key(a, k), Key(b, k)) && KeyRight(Key(a, k), Key(b, k), Key(c, k))
    {
    }
  }

  /** The first two layers need not merge on their own: three layers may be accepted from the right and
      refused from the left. */
  lemma GroupingMatters()
    ensures var inner := Map(map[]);
            var a, b, c := Map(map["x" := inner]), Map(map["x" := Null]), Map(map["x" := inner]);
            RightAccepted(a, b, c) && !LeftAccepted(a, b, c)
  {
    var inner := Map(map[]);
    var a, b, c := Map(map["x" := inner]), Map(map["x" := Null]), Map(map["x" := inner]);
    MergedAt(b, c, "x");
    assert Mergeable(b, c);
    assert !Mergeable(a, b) by {
      assert !Mergeable(a.entries["x"], b.entries["x"]);
    }
  }

  /** A layer laid over itself, or twice in a row, is laid once. */
  lemma {:induction false} SelfMerge(a: Value)
    ensures Mergeable(a, a) && Merged(a, a) == a
    decreases a
  {
    if a.Map? {
      forall k | k in a.entries
        ensures Mergeable(a.entries[k], a.entries[k]) && Merged(a.entries[k], a.entries[k]) == a.entries[k]
      {
        SelfMerge(a.entries[k]);
      }
      forall k: string ensures Key(Merged(a, a), k) == Key(a, k) {
        MergedByKey(a, a, k);
      }
      SameKeys(Merged(a, a), a);
    }
  }

  lemma LayerTwice(a: Value, b: Value)
    requires Mergeable(a, b)
    ensures Mergeable(Merged(a, b), b) && Merged(Merged(a, b), b) == Merged(a, b)
  {
    SelfMerge(b);
    Regrouped(a, b, b);
  }

  // ---------------------------------------------------------------- the code's merge

  lemma MergedSoFar(base: map<string, Value>, over: map<string, Value>, merged: map<string, Value>)
    requires forall k :: k in merged <==> k in base || k in over
    requires forall k :: k in over && k in base ==> merged[k] == Merged(base[k], over[k])
    requires forall k :: k in over && k !in base ==> merged[k] == over[k]
    requires forall k :: k in base && k !in over ==> merged[k] == base[k]
    ensures Map(merged) == Merged(Map(base), Map(over))
  {
    assert Merged(Map(base), Map(over)).entries == merged;
  }

  /** The recursive merge over a local copy, key by key in some order; `path` is where it stands. */
  method DeepMerge(base: map<string, Value>, over: map<string, Value>, path: Path)
    returns (r: Result<map<string, Value>, ConfigError>)
    ensures r.Ok? <==> Mergeable(Map(base), Map(over))
    ensures r.Ok? ==> Map(r.value) == Merged(Map(base), Map(over))
    ensures r.Err? ==> r.error.NotAMapping? && path <= r.error.path
                       && Conflict(Map(base), Map(over), r.error.path[|path|..])
    decreases Map(over)
  {
    var merged := base;
    var todo := over.Keys;
    while todo != {}
      invariant todo <= over.Keys
      invariant forall k :: k in merged <==> k in base || (k in over && k !in todo)
      invariant forall k :: k in over && k !in todo && k in base
                  ==> Mergeable(base[k], over[k]) && merged[k] == Merged(base[k], over[k])
      invariant forall k :: k in over && k !in todo && k !in base ==> merged[k] == over[k]
      invariant forall k :: k in base && (k !in over || k in todo) ==> merged[k] == base[k]
      decreases |todo|
    {
      var key :| key in todo;
      var value := over[key];
      if key in merged && merged[key].Map? {
        if !value.Map? {
          r := Err(NotAMapping(path + [key]));
          assert Conflict(base[key], value, []);
          ConflictHere(base, over, path, key, []);
          return;
        }
        var inner := DeepMerge(merged[key].entries, value.entries, path + [key]);
        if inner.Err? {
          ConflictHere(base, over, path, key, inner.error.path[|path| + 1..]);
          PathParts(path, key, inner.error.path);
          return Err(inner.error);
        }
        merged := merged[key := Map(inner.value)];
      } else {
        merged := merged[key := value];
      }
      todo := todo - {key};
    }
    MergedSoFar(base, over, merged);
    r := Ok(merged);
  }

  lemma ConflictHere(base: map<string, Value>, over: map<string, Value>, path: Path, key: string, rest: Path)
    requires key in base && key in over && Conflict(base[key], over[key], rest)
    ensures Conflict(Map(base), Map(over), [key] + rest)
    ensures !Mergeable(Map(base), Map(over))
    ensures (path + [key] + rest)[|path|..] == [key] + rest
  {
    ConflictDeeper(Map(base), Map(over), key, rest);
    ConflictBlocks(Map(base), Map(over), [key] + rest);
  }

  lemma PathParts(path: Path, key: string, full: Path)
    requires path + [key] <= full
    ensures full[|path|..] == [key] + full[|path| + 1..]
    ensures path <= full
  {
  }

  // ---------------------------------------------------------------- the memory profile

  /** The keys a profile stands for; an unlisted profile stands for none. */
  function ProfileDefaults(profile: string): map<string, Value> {
    if profile == "evolving" then map[
      "guideline_max_tokens" := Int(120),
      "tiering_enabled" := Bool(true),
      "convention_mining_enabled" := Bool(true),
      "record_postmortems" := Bool(true),
      "success_pattern_requires_evidence" := Bool(true),
      "memory_action_enabled" := Bool(true),
      "memory_action_apply_enabled" := Bool(false)]
    else map[]
  }

  predicate KnownProfile(v: Value) {
    v == Text("standard") || v == Text("evolving")
  }

  /** Whether the user's config selects a profile, and which. */
  function Selected(user: map<string, Value>): Option<Value> {
    At(Map(user), ["memory", "profile"])
  }

  /** `memory.profile` replaced by the keys it stands for, where the user has not set them. */
  method ExpandMemoryProfile(user: map<string, Value>) returns (r: Result<map<string, Value>, ConfigError>)
    ensures r == Expanded(user)
  {
    SelectedIs(user);
    hide ProfileDefaults, At;
    if "memory" !in user || !user["memory"].Map? || "profile" !in user["memory"].entries {
      return Ok(user);
    }
    var raw := user["memory"].entries;
    var profile := raw["profile"];
    if !KnownProfile(profile) {
      return Err(UnknownProfile(profile));
    }
    var memory := SetDefaults(raw - {"profile"}, ProfileDefaults(profile.text));
    r := Ok(user["memory" := Map(memory)]);
  }

  /** `setdefault` for each default. */
  method SetDefaults(memory: map<string, Value>, defaults: map<string, Value>) returns (r: map<string, Value>)
    ensures r == defaults + memory
  {
    r := memory;
    var todo := defaults.Keys;
    while todo != {}
      invariant todo <= defaults.Keys
      invariant forall k :: k in r <==> k in memory || (k in defaults && k !in todo)
      invariant forall k :: k in memory ==> r[k] == memory[k]
      invariant forall k :: k in r && k !in memory ==> r[k] == defaults[k]
      decreases |todo|
    {
      var key :| key in todo;
      if key !in r {
        r := r[key := defaults[key]];
      }
      todo := todo - {key};
    }
    DefaultsSet(memory, defaults, r);
  }

  lemma DefaultsSet(memory: map<string, Value>, defaults: map<string, Value>, r: map<string, Value>)
    requires forall k :: k in r <==> k in memory || k in defaults
    requires forall k :: k in memory && k in r ==> r[k] == memory[k]
    requires forall k :: k in r && k !in memory && k in defaults ==> r[k] == defaults[k]
    ensures r == defaults + memory
  {
  }

  /** Explicit keys over profile keys, and no selector left. */
  function Expanded(user: map<string, Value>): Result<map<string, Value>, ConfigError> {
    match Selected(user)
    case None => Ok(user)
    case Some(profile) =>
      if !KnownProfile(profile) then Err(UnknownProfile(profile))
      else
        SelectedIs(user);
        Ok(user["memory" := Map(ProfileDefaults(profile.text) + (user["memory"].entries - {"profile"}))])
  }

  lemma SelectedIs(user: map<string, Value>)
    ensures Selected(user)
            == if "memory" in user && user["memory"].Map? && "profile" in user["memory"].entries
               then Some(user["memory"].entries["profile"]) else None
  {
    var path: Path := ["memory", "profile"];
    assert path[1..] == ["profile"] && path[1..][1..] == [];
  }

  // ---------------------------------------------------------------- loading

  /** An empty file counts as an empty mapping; anything else must be one. */
  function UserMapping(raw: Value): Result<map<string, Value>, ConfigError> {
    if Falsy(raw) then Ok(map[]) else if raw.Map? then Ok(raw.entries) else Err(TopLevelNotMapping)
  }

  /** The user's layer, ready to be laid over the defaults. */
  function UserLayer(raw: Value): Result<map<string, Value>, ConfigError> {
    var user := UserMapping(raw);
    if user.Err? then user else Expanded(user.value)
  }

  /** The parsed file over the defaults. */
  method LoadLayers(defaults: map<string, Value>, raw: Value)
    returns (r: Result<map<string, Value>, ConfigError>)
    ensures r.Ok? <==> UserLayer(raw).Ok? && Mergeable(Map(defaults), Map(UserLayer(raw).value))
    ensures r.Ok? ==> Map(r.value) == Merged(Map(defaults), Map(UserLayer(raw).value))
    ensures UserLayer(raw).Err? ==> r == UserLayer(raw)
  {
    hide Mergeable, Merged, Expanded;
    var user: map<string, Value> := map[];
    if !Falsy(raw) {
      if !raw.Map? {
        return Err(TopLevelNotMapping);
      }
      user := raw.entries;
    }
    var expanded := ExpandMemoryProfile(user);
    if expanded.Err? {
      return expanded;
    }
    r := DeepMerge(defaults, expanded.value, []);
  }

  predicate AcceptedOver(defaults: map<string, Value>, user: map<string, Value>) {
    Expanded(user).Ok? && Mergeable(Map(defaults), Map(Expanded(user).value))
  }

  /** The config a user's mapping loads to. */
  function Loaded(defaults: map<string, Value>, user: map<string, Value>): Value
    requires AcceptedOver(defaults, user)
  {
    Merged(Map(defaults), Map(Expanded(user).value))
  }

  lemma MemoryAt(m: map<string, Value>, key: string)
    ensures At(Map(m), ["memory", key])
            == if "memory" in m && m["memory"].Map? && key in m["memory"].entries
               then Some(m["memory"].entries[key]) else None
  {
    var path: Path := ["memory", key];
    assert path[1..] == [key];
    if "memory" in m {
      assert At(m["memory"], [key]) == if m["memory"].Map? && key in m["memory"].entries
                                       then Some(m["memory"].entries[key]) else None by {
        assert [key][1..] == [];
      }
    }
  }

  lemma ExpandedUser(user: map<string, Value>)
    requires Expanded(user).Ok?
    ensures Selected(user).None? ==> Expanded(user).value == user
    ensures Selected(user).Some?
            ==> KnownProfile(Selected(user).value)
                && "memory" in user && user["memory"].Map? && "memory" in Expanded(user).value
                && Expanded(user).value["memory"]
                   == Map(ProfileDefaults(Selected(user).value.text) + (user["memory"].entries - {"profile"}))
  {
    SelectedIs(user);
    hide At, ProfileDefaults, Selected;
  }

  /** What the expanded layer says about a memory key. */
  lemma ExpandedMemory(user: map<string, Value>, key: string)
    requires Expanded(user).Ok?
    ensures At(Map(Expanded(user).value), ["memory", key])
            == if key == "profile" then None
               else if At(Map(user), ["memory", key]).Some? then At(Map(user), ["memory", key])
               else if Selected(user).Some? && key in ProfileDefaults(Selected(user).value.text)
               then Some(ProfileDefaults(Selected(user).value.text)[key])
               else None
  {
    SelectedIs(user);
    ExpandedUser(user);
    MemoryAt(user, key);
    MemoryAt(Expanded(user).value, key);
    hide At, ProfileDefaults, Selected, Expanded;
    if Selected(user).Some? {
      NoProfileDefault(Selected(user).value.text);
    }
  }

  lemma NoProfileDefault(profile: string)
    ensures "profile" !in ProfileDefaults(profile)
  {
  }

  /** In the loaded config an explicit memory key beats the profile's, which beats the default's; a
      mapping is laid over a default mapping rather than replacing it. */
  lemma MemoryPrecedence(defaults: map<string, Value>, user: map<string, Value>, key: string)
    requires AcceptedOver(defaults, user) && key != "profile"
    ensures var path: Path := ["memory", key];
            var explicit, default := At(Map(user), path), At(Map(defaults), path);
            var profiled := if Selected(user).Some? && key in ProfileDefaults(Selected(user).value.text)
                            then Some(ProfileDefaults(Selected(user).value.text)[key]) else None;
            var chosen := if explicit.Some? then explicit else profiled;
            At(Loaded(defaults, user), path)
            == if chosen.None? then default
               else if default.None? then chosen
               else Some(Merged(default.value, chosen.value))
  {
    hide ProfileDefaults;
    ExpandedMemory(user, key);
    Lookup(Map(defaults), Map(Expanded(user).value), ["memory", key]);
    hide At, Merged, Mergeable, Expanded;
  }

  /** Without one in the defaults, no `profile` key survives loading. */
  lemma NoProfileLeft(defaults: map<string, Value>, user: map<string, Value>)
    requires AcceptedOver(defaults, user) && At(Map(defaults), ["memory", "profile"]).None?
    ensures At(Loaded(defaults, user), ["memory", "profile"]).None?
  {
    hide ProfileDefaults;
    ExpandedMemory(user, "profile");
    Lookup(Map(defaults), Map(Expanded(user).value), ["memory", "profile"]);
    hide At, Merged, Mergeable, Expanded;
  }
}
