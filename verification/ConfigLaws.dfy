/** What loading a config means for the values in it: the empty file, the refusals, and the memory profiles
    key by key. */
module ConfigLaws {
  import opened Options
  import opened ConfigValue
  import opened ConfigMerge

  /** A file that counts as empty. */
  predicate CountsAsEmpty(raw: Value) {
    || raw == Null || raw == Bool(false) || raw == Int(0) || raw == Float(0.0)
    || raw == Text("") || raw == List([]) || raw == Map(map[])
  }

  /** The user's memory section selects the profile. */
  predicate Selects(user: map<string, Value>, profile: Value) {
    && "memory" in user && user["memory"].Map?
    && "profile" in user["memory"].entries && user["memory"].entries["profile"] == profile
  }

  predicate SelectsNone(user: map<string, Value>) {
    "memory" in user && user["memory"].Map? ==> "profile" !in user["memory"].entries
  }

  lemma SelectsIs(user: map<string, Value>)
    ensures forall profile :: Selects(user, profile) <==> Selected(user) == Some(profile)
    ensures SelectsNone(user) <==> Selected(user) == None
  {
    SelectedIs(user);
  }

  /** A file is refused before merging exactly if it is no mapping and not empty, or selects a profile other
      than the two; an empty one is a mapping without keys. */
  lemma RefusedExactly(raw: Value)
    ensures UserLayer(raw) == Err(TopLevelNotMapping) <==> !raw.Map? && !CountsAsEmpty(raw)
    ensures forall profile :: UserLayer(raw) == Err(UnknownProfile(profile))
              <==> && raw.Map? && Selects(raw.entries, profile)
                   && profile != Text("standard") && profile != Text("evolving")
    ensures CountsAsEmpty(raw) ==> UserLayer(raw) == Ok(map[])
    ensures raw.Map? && SelectsNone(raw.entries) ==> UserLayer(raw) == Ok(raw.entries)
  {
    SelectsIs(map[]);
    assert SelectsNone(map[]);
    if raw.Map? {
      SelectsIs(raw.entries);
    }
    hide Selected, ProfileDefaults, Selects, SelectsNone;
  }

  /** What the evolving profile sets. Applying memory actions is not switched on by it. */
  predicate Evolving(key: string, value: Value) {
    || (key == "guideline_max_tokens" && value == Int(120))
    || (key == "tiering_enabled" && value == Bool(true))
    || (key == "convention_mining_enabled" && value == Bool(true))
    || (key == "record_postmortems" && value == Bool(true))
    || (key == "success_pattern_requires_evidence" && value == Bool(true))
    || (key == "memory_action_enabled" && value == Bool(true))
    || (key == "memory_action_apply_enabled" && value == Bool(false))
  }

  lemma ProfileIs(profile: string)
    ensures forall key, value :: (key in ProfileDefaults("evolving") && ProfileDefaults("evolving")[key] == value)
                                 <==> Evolving(key, value)
    ensures profile != "evolving" ==> ProfileDefaults(profile) == map[]
  {
  }

  lemma LeafOver(base: Value, over: Value)
    ensures !over.Map? || !base.Map? ==> Merged(base, over) == over
  {
  }

  /** With the evolving profile a key of the list that the user leaves out has the listed value, whatever the
      default is. */
  lemma EvolvingLoads(defaults: map<string, Value>, user: map<string, Value>, key: string, value: Value)
    requires AcceptedOver(defaults, user) && Selects(user, Text("evolving")) && Evolving(key, value)
    requires At(Map(user), ["memory", key]).None?
    ensures At(Loaded(defaults, user), ["memory", key]) == Some(value)
  {
    MemoryPrecedence(defaults, user, key);
    SelectsIs(user);
    ProfileIs("evolving");
    var default := At(Map(defaults), ["memory", key]);
    if default.Some? {
      LeafOver(default.value, value);
    }
    assert !value.Map? && key != "profile";
    hide At, Loaded, AcceptedOver, ProfileDefaults, Selected, Selects, Merged;
  }

  /** All other memory keys are as without a profile, and with the standard profile all are: the user's own value
      if there is one, and the default's if not. */
  lemma OthersLoad(defaults: map<string, Value>, user: map<string, Value>, key: string)
    requires AcceptedOver(defaults, user) && key != "profile"
    requires Selects(user, Text("evolving")) ==> forall value :: !Evolving(key, value)
    ensures var own, default := At(Map(user), ["memory", key]), At(Map(defaults), ["memory", key]);
            && (own.None? ==> At(Loaded(defaults, user), ["memory", key]) == default)
            && (own.Some? && (default.None? || !own.value.Map?) ==> At(Loaded(defaults, user), ["memory", key]) == own)
  {
    MemoryPrecedence(defaults, user, key);
    SelectsIs(user);
    ProfileIs("evolving");
    if Selected(user).Some? {
      ProfileKnown(defaults, user);
      ProfileIs(Selected(user).value.text);
    }
    var evolving := ProfileDefaults("evolving");
    assert key in evolving ==> Evolving(key, evolving[key]);
    var own, default := At(Map(user), ["memory", key]), At(Map(defaults), ["memory", key]);
    if own.Some? && default.Some? {
      LeafOver(default.value, own.value);
    }
    hide At, Loaded, AcceptedOver, ProfileDefaults, Selected, Selects, Merged;
  }

  lemma ProfileKnown(defaults: map<string, Value>, user: map<string, Value>)
    requires AcceptedOver(defaults, user) && Selected(user).Some?
    ensures Selected(user).value == Text("standard") || Selected(user).value == Text("evolving")
  {
    ExpandedUser(user);
    hide Selected, Expanded, Mergeable;
  }
}
