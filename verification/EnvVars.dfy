/** Resolving [env]: the plain environment variables of a service in one environment. */
module EnvVars {
  import opened Options
  import opened Placeholders
  import opened Sections
  import opened Sorting
  import opened Toml

  predicate AllTexts(entries: seq<Field>) {
    forall i | 0 <= i < |entries| :: entries[i].value.Str?
  }

  predicate EntryOk(f: Field) {
    f.value.Str? || (f.value.Tab? && AllTexts(f.value.entries))
  }

  /** Good in every environment: texts, and overlay tables of texts. */
  predicate VarsOk(raw: seq<Field>) {
    forall i | 0 <= i < |raw| :: EntryOk(raw[i])
  }

  /** The text a variable has in an environment, before substitution: the overlay's, else the base's. */
  function Chosen(raw: seq<Field>, env: string, key: string): Option<string> {
    var overlaid := TextAt(TableAt(raw, env), key);
    if overlaid.Some? then overlaid else TextAt(raw, key)
  }

  function Substituted(text: Option<string>, env: string): Option<string> {
    match text case Some(t) => Some(ApplyEnv(t, env)) case None => None
  }

  /** Exactly the chosen variables, with {env} replaced. */
  ghost predicate Resolves(raw: seq<Field>, env: string, vars: map<string, string>) {
    forall key: string :: At(vars, key) == Substituted(Chosen(raw, env, key), env)
  }

  function KeyOf(): ((string, string)) -> string {
    (pair: (string, string)) => pair.0
  }

  /** The same as a list, by key. */
  ghost predicate IsResolution(raw: seq<Field>, env: string, vars: seq<(string, string)>) {
    && Ascending(vars, KeyOf())
    && (forall pair: (string, string) :: pair in vars <==> Substituted(Chosen(raw, env, pair.0), env) == Some(pair.1))
  }

  /** The base map overridden by the entries of the overlay read so far. */
  ghost predicate Merges(base: map<string, string>, overlay: seq<Field>, env: string, vars: map<string, string>) {
    forall key: string {:trigger Layered(base, overlay, env, key)} ::
      At(vars, key) == Layered(base, overlay, env, key)
  }

  function Layered(base: map<string, string>, overlay: seq<Field>, env: string, key: string): Option<string> {
    if TextAt(overlay, key).Some? then Substituted(TextAt(overlay, key), env) else At(base, key)
  }

  lemma NextMerge(base: map<string, string>, overlay: seq<Field>, i: nat, env: string, vars: map<string, string>)
    requires i < |overlay| && overlay[i].value.Str? && Merges(base, overlay[..i], env, vars)
    ensures Merges(base, overlay[..i + 1], env, vars[overlay[i].key := ApplyEnv(overlay[i].value.text, env)])
  {
    var next := vars[overlay[i].key := ApplyEnv(overlay[i].value.text, env)];
    var read := overlay[..i + 1];
    forall key: string ensures At(next, key) == Layered(base, read, env, key) {
      NextLookup(overlay, i, key);
      assert At(vars, key) == Layered(base, overlay[..i], env, key);
    }
  }

  /** A table adds nothing to the base: its key is free. */
  lemma SkipTable(raw: seq<Field>, i: nat, env: string, vars: map<string, string>)
    requires UniqueKeys(raw) && i < |raw| && !raw[i].value.Str? && Merges(map[], raw[..i], env, vars)
    ensures Merges(map[], raw[..i + 1], env, vars)
  {
    var read := raw[..i + 1];
    assert Lookup(raw[..i], raw[i].key).None?;
    forall key: string ensures At(vars, key) == Layered(map[], read, env, key) {
      NextLookup(raw, i, key);
      assert At(vars, key) == Layered(map[], raw[..i], env, key);
    }
  }

  /** The base entries. */
  method BaseVars(raw: seq<Field>, env: string) returns (r: Result<map<string, string>>)
    requires UniqueKeys(raw)
    ensures r.Ok? <==> forall i | 0 <= i < |raw| :: raw[i].value.Str? || raw[i].value.Tab?
    ensures r.Ok? ==> Merges(map[], raw, env, r.value)
  {
    var merged: map<string, string> := map[];
    for i := 0 to |raw|
      invariant forall j | 0 <= j < i :: raw[j].value.Str? || raw[j].value.Tab?
      invariant Merges(map[], raw[..i], env, merged)
    {
      match raw[i].value {
        case Str(text) =>
          NextMerge(map[], raw, i, env, merged);
          merged := merged[raw[i].key := ApplyEnv(text, env)];
        case Tab(_) => SkipTable(raw, i, env, merged);
        case _ => return Err(Rejected);
      }
    }
    assert raw[..|raw|] == raw;
    return Ok(merged);
  }

  /** Checks one overlay table; its entries win when it is the selected one. */
  method OverlayVars(entries: seq<Field>, env: string, selected: bool, base: map<string, string>)
    returns (r: Result<map<string, string>>)
    ensures r.Ok? <==> AllTexts(entries)
    ensures r.Ok? ==> if selected then Merges(base, entries, env, r.value) else r.value == base
  {
    var merged := base;
    for i := 0 to |entries|
      invariant forall j | 0 <= j < i :: entries[j].value.Str?
      invariant if selected then Merges(base, entries[..i], env, merged) else merged == base
    {
      if !entries[i].value.Str? { return Err(Rejected); }
      if selected {
        NextMerge(base, entries, i, env, merged);
        merged := merged[entries[i].key := ApplyEnv(entries[i].value.text, env)];
      }
    }
    assert entries[..|entries|] == entries;
    return Ok(merged);
  }

  lemma MergedBoth(raw: seq<Field>, env: string, base: map<string, string>, vars: map<string, string>)
    requires Merges(map[], raw, env, base) && Merges(base, TableAt(raw, env), env, vars)
    ensures Resolves(raw, env, vars)
  {
    forall key: string ensures At(vars, key) == Substituted(Chosen(raw, env, key), env) {
      assert At(vars, key) == Layered(base, TableAt(raw, env), env, key);
      assert At(base, key) == Layered(map[], raw, env, key);
    }
  }

  /** Merging into a map that is still the base gives what merging into the base gives. */
  lemma StillBase(base: map<string, string>, env: string, vars: map<string, string>)
    requires Merges(base, [], env, vars)
    ensures vars == base
  {
    forall key: string ensures At(vars, key) == At(base, key) {
      assert At(vars, key) == Layered(base, [], env, key);
    }
    forall key: string ensures key in vars <==> key in base { assert At(vars, key) == At(base, key); }
    forall key: string | key in vars ensures vars[key] == base[key] { assert At(vars, key) == At(base, key); }
  }

  lemma Listed(raw: seq<Field>, env: string, vars: map<string, string>, pairs: map<string, (string, string)>,
               list: seq<(string, string)>)
    requires Resolves(raw, env, vars) && pairs == map key | key in vars :: (key, vars[key])
    requires Ascending(list, KeyOf())
    requires forall pair :: pair in list <==> KeyOf()(pair) in pairs && pairs[KeyOf()(pair)] == pair
    ensures IsResolution(raw, env, list)
  {
    forall pair: (string, string)
      ensures pair in list <==> Substituted(Chosen(raw, env, pair.0), env) == Some(pair.1) {
      assert KeyOf()(pair) == pair.0;
      assert At(vars, pair.0) == Substituted(Chosen(raw, env, pair.0), env);
    }
  }

  /** Resolves [env]; whether it succeeds does not depend on the environment. */
  method ResolveEnvVars(raw: seq<Field>, env: string) returns (r: Result<seq<(string, string)>>)
    requires UniqueKeys(raw)
    ensures r.Ok? <==> VarsOk(raw)
    ensures r.Ok? ==> IsResolution(raw, env, r.value)
  {
    var base := BaseVars(raw, env);
    if base.Err? {
      assert exists i | 0 <= i < |raw| :: !EntryOk(raw[i]);
      return Err(base.error);
    }
    var merged := base.value;
    ghost var chosen: seq<Field> := [];
    for i := 0 to |raw|
      invariant forall j | 0 <= j < i :: EntryOk(raw[j])
      invariant chosen == TableAt(raw[..i], env) && Merges(base.value, chosen, env, merged)
    {
      NextSelected(raw, i, env);
      chosen := TableAt(raw[..i + 1], env);
      if raw[i].value.Tab? {
        if raw[i].key == env { StillBase(base.value, env, merged); }
        var applied := OverlayVars(raw[i].value.entries, env, raw[i].key == env, merged);
        if applied.Err? { return Err(applied.error); }
        merged := applied.value;
      }
    }
    assert raw[..|raw|] == raw;
    MergedBoth(raw, env, base.value, merged);
    var pairs := map key | key in merged :: (key, merged[key]);
    var list := ListByKey(pairs, KeyOf());
    Listed(raw, env, merged, pairs, list);
    return Ok(list);
  }

  /** The environment's own table gives the variable a text, and replacing the tokens in it gives the value; or it gives
      none, and the base does. */
  ghost predicate Gives(raw: seq<Field>, env: string, key: string, value: string) {
    var own := Lookup(raw, env);
    var overlay := if own.Some? && own.value.Tab? then Lookup(own.value.entries, key) else None;
    var base := Lookup(raw, key);
    if overlay.Some? && overlay.value.Str? then value == ApplyEnv(overlay.value.text, env)
    else base.Some? && base.value.Str? && value == ApplyEnv(base.value.text, env)
  }

  /** The list holds exactly the variables given. */
  lemma VariableMeans(raw: seq<Field>, env: string, vars: seq<(string, string)>, key: string, value: string)
    requires IsResolution(raw, env, vars)
    ensures (key, value) in vars <==> Gives(raw, env, key, value)
  {
    assert (key, value) in vars <==> Substituted(Chosen(raw, env, key), env) == Some(value);
  }

  /** Two sections with the same base texts and the same overlay for env resolve alike there. */
  lemma OnlyBaseAndOwnOverlayCount(raw1: seq<Field>, raw2: seq<Field>, env: string,
                                   vars1: seq<(string, string)>, vars2: seq<(string, string)>)
    requires IsResolution(raw1, env, vars1) && IsResolution(raw2, env, vars2)
    requires forall key: string :: TextAt(raw1, key) == TextAt(raw2, key)
    requires TableAt(raw1, env) == TableAt(raw2, env)
    ensures vars1 == vars2
  {
    forall pair: (string, string) ensures pair in vars1 <==> pair in vars2 {
      assert Chosen(raw1, env, pair.0) == Chosen(raw2, env, pair.0);
    }
    AscendingEqual(vars1, vars2, KeyOf());
  }
}
