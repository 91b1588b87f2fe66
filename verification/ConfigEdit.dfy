/** Editing one value of a config file, and what that does to the config it loads to. */
module ConfigEdit {
  import opened Options
  import opened ConfigValue
  import opened ConfigMerge

  /** Sets the value under a path; mappings missing on the way are made. */
  function Put(v: Value, path: Path, x: Value): Value
    decreases |path|
  {
    if path == [] then x
    else
      var entries := if v.Map? then v.entries else map[];
      var child := if path[0] in entries then entries[path[0]] else Map(map[]);
      Map(entries[path[0] := Put(child, path[1..], x)])
  }

  /** The paths part ways somewhere: neither leads through the other. */
  predicate Diverge(p: Path, q: Path)
    decreases |p|
  {
    p != [] && q != [] && (p[0] != q[0] || Diverge(p[1..], q[1..]))
  }

  lemma {:induction false} PutSame(v: Value, path: Path, x: Value)
    ensures At(Put(v, path, x), path) == Some(x)
    decreases |path|
  {
    if path != [] {
      var entries := if v.Map? then v.entries else map[];
      PutSame(if path[0] in entries then entries[path[0]] else Map(map[]), path[1..], x);
    }
  }

  lemma {:induction false} PutOther(v: Value, path: Path, x: Value, q: Path)
    requires Diverge(path, q)
    ensures At(Put(v, path, x), q) == At(v, q)
    decreases |path|
  {
    if path[0] == q[0] {
      var entries := if v.Map? then v.entries else map[];
      var child := if path[0] in entries then entries[path[0]] else Map(map[]);
      PutOther(child, path[1..], x, q[1..]);
      assert q[1..] != [];
    }
  }

  /** Seen from a mapping on the way, the rest of the path is set there. */
  lemma {:induction false} PutBelow(v: Value, above: Path, rest: Path, x: Value)
    ensures At(Put(v, above + rest, x), above)
            == Some(Put(if At(v, above).Some? then At(v, above).value else Map(map[]), rest, x))
    decreases |above|
  {
    if above == [] {
      assert above + rest == rest;
    } else {
      assert (above + rest)[1..] == above[1..] + rest;
      var entries := if v.Map? then v.entries else map[];
      PutBelow(if above[0] in entries then entries[above[0]] else Map(map[]), above[1..], rest, x);
      if above[0] !in entries {
        EmptyAt(above[1..]);
      }
    }
  }

  lemma EmptyAt(path: Path)
    ensures At(Map(map[]), path) == if path == [] then Some(Map(map[])) else None
  {
  }

  // ---------------------------------------------------------------- edits and layers

  predicate NoMapAt(v: Value, path: Path) {
    At(v, path).Some? ==> !At(v, path).value.Map?
  }

  lemma EmptyLayer(base: Value)
    ensures Mergeable(base, Map(map[]))
    ensures Merged(base, Map(map[])) == if base.Map? then base else Map(map[])
  {
    if base.Map? {
      assert Merged(base, Map(map[])).entries == base.entries;
    }
  }

  /** Editing a leaf of the upper layer edits the merged config the same way, and keeps the layers
      mergeable. */
  lemma {:induction false} MergedPut(base: Value, over: Value, path: Path, x: Value)
    requires Mergeable(base, over) && !x.Map? && NoMapAt(base, path)
    ensures Mergeable(base, Put(over, path, x))
    ensures Merged(base, Put(over, path, x)) == Put(Merged(base, over), path, x)
    decreases |path|
  {
    if path != [] {
      var k, rest := path[0], path[1..];
      var entries := if over.Map? then over.entries else map[];
      var child := if k in entries then entries[k] else Map(map[]);
      if base.Map? {
        if k in base.entries {
          EmptyLayer(base.entries[k]);
          MergedPut(base.entries[k], child, rest, x);
          PutOnNoMap(base.entries[k], rest, x);
        }
        MergedPutKey(base, over, k, rest, x);
      }
    }
  }

  lemma PutOnNoMap(v: Value, path: Path, x: Value)
    ensures !v.Map? ==> Put(v, path, x) == Put(Map(map[]), path, x)
  {
  }

  lemma MergedPutKey(base: Value, over: Value, k: string, rest: Path, x: Value)
    requires base.Map? && over.Map? && Mergeable(base, over)
    requires var child := if k in over.entries then over.entries[k] else Map(map[]);
             k in base.entries ==>
               && Mergeable(base.entries[k], Put(child, rest, x))
               && Merged(base.entries[k], Put(child, rest, x)) == Put(Merged(base.entries[k], child), rest, x)
               && Merged(base.entries[k], Map(map[])) == (if base.entries[k].Map? then base.entries[k] else Map(map[]))
               && (!base.entries[k].Map? ==> Put(base.entries[k], rest, x) == Put(Map(map[]), rest, x))
    ensures Mergeable(base, Put(over, [k] + rest, x))
    ensures Merged(base, Put(over, [k] + rest, x)) == Put(Merged(base, over), [k] + rest, x)
  {
    assert ([k] + rest)[1..] == rest;
    var child := if k in over.entries then over.entries[k] else Map(map[]);
    var after := Put(over, [k] + rest, x);
    assert after == Map(over.entries[k := Put(child, rest, x)]);
    hide Put;
    MergeableKey(base, over, after, k);
    hide Mergeable;
    var left, merged := Merged(base, after), Merged(base, over);
    MergedAt(base, over, k);
    MergedAt(base, after, k);
    var right := Map(merged.entries[k := left.entries[k]]);
    forall j: string ensures Key(left, j) == Key(right, j) {
      MergedAt(base, over, j);
      MergedAt(base, after, j);
    }
    SameKeys(left, right);
    PutKey(merged, k, rest, x);
  }

  lemma MergeableKey(base: Value, over: Value, after: Value, k: string)
    requires base.Map? && over.Map? && after.Map? && Mergeable(base, over)
    requires k in after.entries && after == Map(over.entries[k := after.entries[k]])
    requires k in base.entries ==> Mergeable(base.entries[k], after.entries[k])
    ensures Mergeable(base, after)
  {
  }

  lemma PutKey(v: Value, k: string, rest: Path, x: Value)
    requires v.Map?
    ensures Put(v, [k] + rest, x)
            == Map(v.entries[k := Put(if k in v.entries then v.entries[k] else Map(map[]), rest, x)])
  {
    assert ([k] + rest)[1..] == rest;
  }

  /** The profile expansion does not meddle with an edit elsewhere. */
  lemma ExpandedPut(user: map<string, Value>, path: Path, x: Value)
    requires Expanded(user).Ok? && path != []
    requires path[0] != "memory" || (|path| == 2 && path[1] != "profile")
    ensures Put(Map(user), path, x).Map? && Expanded(Put(Map(user), path, x).entries).Ok?
    ensures Map(Expanded(Put(Map(user), path, x).entries).value) == Put(Map(Expanded(user).value), path, x)
  {
    var user' := Put(Map(user), path, x).entries;
    hide ProfileDefaults;
    SelectedIs(user);
    SelectedIs(user');
    if path[0] != "memory" {
      ExpandedElsewhere(user, path, x);
    } else {
      assert path == ["memory", path[1]];
      ExpandedInMemory(user, path[1], x);
    }
  }

  lemma ExpandedElsewhere(user: map<string, Value>, path: Path, x: Value)
    requires Expanded(user).Ok? && path != [] && path[0] != "memory"
    ensures Put(Map(user), path, x).Map? && Expanded(Put(Map(user), path, x).entries).Ok?
    ensures Map(Expanded(Put(Map(user), path, x).entries).value) == Put(Map(Expanded(user).value), path, x)
  {
    var user' := Put(Map(user), path, x).entries;
    SelectedIs(user);
    SelectedIs(user');
    hide ProfileDefaults, At;
    assert user' == user[path[0] := user'[path[0]]];
    if Selected(user).Some? {
      var memory := Expanded(user).value["memory"];
      assert Expanded(user).value == user["memory" := memory];
      assert user'["memory"] == user["memory"];
      assert Expanded(user').value == user'["memory" := memory];
      assert user["memory" := memory][path[0] := user'[path[0]]] == user'["memory" := memory];
    }
  }

  /** The memory section, empty unless it is a mapping. */
  function MemoryOf(user: map<string, Value>): map<string, Value> {
    if "memory" in user && user["memory"].Map? then user["memory"].entries else map[]
  }

  function WithMemory(user: map<string, Value>, k: string, x: Value): map<string, Value> {
    user["memory" := Map(MemoryOf(user)[k := x])]
  }

  lemma PutInMemory(user: map<string, Value>, k: string, x: Value)
    ensures Put(Map(user), ["memory", k], x) == Map(WithMemory(user, k, x))
  {
    var child := if "memory" in user then user["memory"] else Map(map[]);
    assert ["memory", k] == ["memory"] + [k] && [k] == [k] + [];
    PutKey(Map(user), "memory", [k], x);
    PutOnNoMap(child, [k], x);
    PutKey(if child.Map? then child else Map(map[]), k, [], x);
  }

  lemma SelectedSame(user: map<string, Value>, k: string, x: Value)
    requires k != "profile"
    ensures Selected(WithMemory(user, k, x)) == Selected(user)
  {
    SelectedIs(user);
    SelectedIs(WithMemory(user, k, x));
    hide Selected;
  }

  lemma ExpandedInMemory(user: map<string, Value>, k: string, x: Value)
    requires Expanded(user).Ok? && k != "profile"
    ensures Put(Map(user), ["memory", k], x).Map? && Expanded(Put(Map(user), ["memory", k], x).entries).Ok?
    ensures Map(Expanded(Put(Map(user), ["memory", k], x).entries).value)
            == Put(Map(Expanded(user).value), ["memory", k], x)
  {
    hide *;
    var user' := WithMemory(user, k, x);
    PutInMemory(user, k, x);
    PutInMemory(Expanded(user).value, k, x);
    SelectedSame(user, k, x);
    ExpandedOk(user, user');
    ExpandedUser(user);
    ExpandedUser(user');
    if Selected(user).Some? {
      ProfiledMemory(user, k, x);
    }
  }

  lemma ProfiledMemory(user: map<string, Value>, k: string, x: Value)
    requires Expanded(user).Ok? && k != "profile" && Selected(user).Some?
    requires Selected(WithMemory(user, k, x)) == Selected(user) && Expanded(WithMemory(user, k, x)).Ok?
    ensures Expanded(WithMemory(user, k, x)).value == WithMemory(Expanded(user).value, k, x)
  {
    var user' := WithMemory(user, k, x);
    ExpandedUser(user);
    ExpandedUser(user');
    ExpandedKeeps(user);
    ExpandedKeeps(user');
    hide Expanded, Selected, ProfileDefaults, KnownProfile;
    ProfileUnder(ProfileDefaults(Selected(user).value.text), user["memory"].entries, k, x);
  }

  lemma ExpandedOk(user: map<string, Value>, user': map<string, Value>)
    requires Expanded(user).Ok? && Selected(user') == Selected(user)
    ensures Expanded(user').Ok?
  {
    hide Selected, ProfileDefaults;
  }

  lemma ExpandedKeeps(user: map<string, Value>)
    requires Expanded(user).Ok? && "memory" in Expanded(user).value
    ensures Expanded(user).value == user["memory" := Expanded(user).value["memory"]]
  {
    hide Selected, ProfileDefaults;
    if Selected(user).None? {
      assert user == user["memory" := user["memory"]];
    }
  }

  lemma ProfileUnder(profiled: map<string, Value>, memory: map<string, Value>, k: string, x: Value)
    requires k != "profile"
    ensures profiled + (memory[k := x] - {"profile"}) == (profiled + (memory - {"profile"}))[k := x]
  {
  }
}
