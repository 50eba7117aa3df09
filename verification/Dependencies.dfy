/** Resolving [depends_on]: the services one depends on in one environment. */
module Dependencies {
  import opened Options
  import opened Placeholders
  import opened Plans
  import opened Sections
  import opened Toml

  const DEFAULT_PORT: nat := 50051
  const INHERIT := "@inherit"
  const RESERVED := ["namespace", "port", "ports", "envs"]

  /** A parsed entry: default namespace, per-environment overrides, the environments it is active in, ports. */
  datatype DepSpec = DepSpec(namespace: Option<string>, overrides: map<string, string>, envs: Option<seq<string>>,
                             ports: Option<seq<nat>>)

  // ---------- one entry ----------

  predicate AllTexts(items: seq<Value>) {
    forall i | 0 <= i < |items| :: items[i].Str?
  }

  function TextsOf(v: Value): Option<seq<string>> {
    match Elements(v)
    case None => None
    case Some(items) =>
      if AllTexts(items) then Some(seq(|items|, i requires 0 <= i < |items| && items[i].Str? => items[i].text))
      else None
  }

  predicate DepKeyOk(f: Field) {
    match f.key
    case "port" => IsPort(f.value)
    case "ports" => PortList(f.value).Some?
    case "envs" => TextsOf(f.value).Some?
    case _ => f.value.Str?
  }

  predicate DepKeysOk(entries: seq<Field>) {
    forall i | 0 <= i < |entries| :: DepKeyOk(entries[i])
  }

  /** Known keys have the right kind of value, the rest are namespaces, and port and ports are exclusive. */
  predicate DepTableOk(entries: seq<Field>) {
    && DepKeysOk(entries)
    && (Lookup(entries, "port").None? || Lookup(entries, "ports").None?)
  }

  /** The namespace pattern an entry gives for one environment only. */
  function Override(entries: seq<Field>, env: string): Option<string> {
    if env in RESERVED then None else TextAt(entries, env)
  }

  function EnvsAt(entries: seq<Field>): Option<seq<string>> {
    match Lookup(entries, "envs") case Some(v) => TextsOf(v) case None => None
  }

  function PortsAt(entries: seq<Field>): Option<seq<nat>> {
    match (Lookup(entries, "port"), Lookup(entries, "ports"))
    case (Some(v), _) => if IsPort(v) then Some([v.number]) else None
    case (None, Some(v)) => PortList(v)
    case (None, None) => None
  }

  ghost predicate Describes(spec: DepSpec, entries: seq<Field>) {
    && spec.namespace == TextAt(entries, "namespace") && spec.envs == EnvsAt(entries) && spec.ports == PortsAt(entries)
    && OverridesMatch(spec.overrides, entries)
  }

  ghost predicate OverridesMatch(overrides: map<string, string>, entries: seq<Field>) {
    forall key: string {:trigger Override(entries, key)} :: At(overrides, key) == Override(entries, key)
  }

  method ParseEnvs(v: Value) returns (r: Result<seq<string>>)
    ensures Outcome(r) == TextsOf(v)
  {
    var elements := Elements(v);
    if elements.None? { return Err(Rejected); }
    var items := elements.value;
    var list: seq<string> := [];
    for i := 0 to |items|
      invariant |list| == i
      invariant forall j | 0 <= j < i :: items[j].Str? && list[j] == items[j].text
    {
      if !items[i].Str? { return Err(Rejected); }
      list := list + [items[i].text];
    }
    assert AllTexts(items) && list == TextsOf(v).value;
    return Ok(list);
  }

  /** The spec after one more key; the port keys clash when ports were already given. */
  function Noted(spec: DepSpec, f: Field): Option<DepSpec> {
    if !DepKeyOk(f) then None
    else match f.key
      case "namespace" => Some(spec.(namespace := Some(f.value.text)))
      case "port" => if spec.ports.Some? then None else Some(spec.(ports := Some([f.value.number])))
      case "ports" => if spec.ports.Some? then None else Some(spec.(ports := PortList(f.value)))
      case "envs" => Some(spec.(envs := TextsOf(f.value)))
      case _ => Some(spec.(overrides := spec.overrides[f.key := f.value.text]))
  }

  method ReadKey(spec: DepSpec, f: Field) returns (r: Result<DepSpec>)
    ensures Outcome(r) == Noted(spec, f)
  {
    match f.key {
      case "namespace" =>
        if !f.value.Str? { return Err(Rejected); }
        return Ok(spec.(namespace := Some(f.value.text)));
      case "port" =>
        if !f.value.Int? || !(1 <= f.value.number <= 65535) || spec.ports.Some? { return Err(Rejected); }
        return Ok(spec.(ports := Some([f.value.number])));
      case "ports" =>
        if spec.ports.Some? { return Err(Rejected); }
        var list := ParsePorts(f.value);
        if list.Err? { return Err(list.error); }
        return Ok(spec.(ports := Some(list.value)));
      case "envs" =>
        var list := ParseEnvs(f.value);
        if list.Err? { return Err(list.error); }
        return Ok(spec.(envs := Some(list.value)));
      case _ =>
        if !f.value.Str? { return Err(Rejected); }
        return Ok(spec.(overrides := spec.overrides[f.key := f.value.text]));
    }
  }

  lemma NextOverrides(overrides: map<string, string>, entries: seq<Field>, i: nat)
    requires UniqueKeys(entries) && i < |entries| && OverridesMatch(overrides, entries[..i])
    ensures entries[i].key in RESERVED ==> OverridesMatch(overrides, entries[..i + 1])
    ensures entries[i].key !in RESERVED && entries[i].value.Str? ==>
              OverridesMatch(overrides[entries[i].key := entries[i].value.text], entries[..i + 1])
  {
    var f := entries[i];
    var read := entries[..i + 1];
    var next := if f.key in RESERVED || !f.value.Str? then overrides else overrides[f.key := f.value.text];
    if f.key in RESERVED || f.value.Str? {
      forall key: string ensures At(next, key) == Override(read, key) {
        NextLookup(entries, i, key);
        assert At(overrides, key) == Override(entries[..i], key);
      }
    }
  }

  lemma NextPorts(entries: seq<Field>, i: nat)
    requires i < |entries| && DepKeyOk(entries[i]) && PortsAt(entries[..i]).None? && DepKeysOk(entries[..i])
    ensures entries[i].key == "port" ==> PortsAt(entries[..i + 1]) == Some([entries[i].value.number])
    ensures entries[i].key == "ports" ==> PortsAt(entries[..i + 1]) == PortList(entries[i].value)
  {
    NextLookup(entries, i, "port");
    NextLookup(entries, i, "ports");
  }

  lemma SamePorts(entries: seq<Field>, i: nat)
    requires i < |entries| && entries[i].key != "port" && entries[i].key != "ports"
    ensures PortsAt(entries[..i + 1]) == PortsAt(entries[..i])
  {
    NextLookup(entries, i, "port");
    NextLookup(entries, i, "ports");
  }

  lemma NextDescribes(spec: DepSpec, entries: seq<Field>, i: nat, next: DepSpec)
    requires UniqueKeys(entries) && i < |entries| && Describes(spec, entries[..i]) && DepKeysOk(entries[..i])
    requires Noted(spec, entries[i]) == Some(next)
    ensures Describes(next, entries[..i + 1])
  {
    NextOverrides(spec.overrides, entries, i);
    NextLookup(entries, i, "namespace");
    NextLookup(entries, i, "envs");
    if entries[i].key == "port" || entries[i].key == "ports" {
      NextPorts(entries, i);
    } else {
      SamePorts(entries, i);
    }
  }

  lemma NextTable(spec: DepSpec, entries: seq<Field>, i: nat)
    requires UniqueKeys(entries) && i < |entries| && spec.ports == PortsAt(entries[..i]) && DepTableOk(entries[..i])
    ensures Noted(spec, entries[i]).Some? <==> DepTableOk(entries[..i + 1])
  {
    NextLookup(entries, i, "port");
    NextLookup(entries, i, "ports");
    GivenPorts(entries[..i]);
    NextKeysOk(entries, i);
  }

  /** Good ports keys give ports. */
  lemma GivenPorts(entries: seq<Field>)
    requires DepKeysOk(entries)
    ensures PortsAt(entries).Some? <==> Lookup(entries, "port").Some? || Lookup(entries, "ports").Some?
  {
  }

  lemma NextKeysOk(entries: seq<Field>, i: nat)
    requires i < |entries| && DepKeysOk(entries[..i])
    ensures DepKeysOk(entries[..i + 1]) <==> DepKeyOk(entries[i])
  {
    var read := entries[..i + 1];
    assert read[i] == entries[i] && read[..i] == entries[..i];
    if DepKeyOk(entries[i]) {
      forall j | 0 <= j < |read| ensures DepKeyOk(read[j]) { assert j < i ==> read[j] == entries[..i][j]; }
    }
  }

  /** Parses the table form of an entry. */
  method ParseTable(entries: seq<Field>) returns (r: Result<DepSpec>)
    requires UniqueKeys(entries)
    ensures r.Ok? <==> DepTableOk(entries)
    ensures r.Ok? ==> Describes(r.value, entries)
  {
    var spec := DepSpec(None, map[], None, None);
    for i := 0 to |entries|
      invariant DepTableOk(entries[..i])
      invariant Describes(spec, entries[..i])
    {
      var next := ReadKey(spec, entries[i]);
      NextTable(spec, entries, i);
      if next.Err? { return Err(next.error); }
      NextDescribes(spec, entries, i, next.value);
      spec := next.value;
    }
    assert entries[..|entries|] == entries;
    return Ok(spec);
  }

  // ---------- resolution ----------

  datatype Verdict = Dropped | Target(dependency: DependencyRef) | Bad

  predicate Active(v: Value, env: string) {
    v.Tab? && EnvsAt(v.entries).Some? ==> env in EnvsAt(v.entries).value
  }

  /** The namespace pattern for an environment: its override, else the default. */
  function Pattern(v: Value, env: string): Option<string> {
    match v
    case Str(s) => Some(s)
    case Tab(entries) =>
      if Override(entries, env).Some? then Override(entries, env) else TextAt(entries, "namespace")
    case _ => None
  }

  function PortsFor(v: Value): seq<nat> {
    if v.Tab? then PortsAt(v.entries).GetOr([DEFAULT_PORT]) else [DEFAULT_PORT]
  }

  predicate Wellformed(v: Value) {
    v.Str? || (v.Tab? && DepTableOk(v.entries))
  }

  /** What an entry comes to in an environment; an active one must have a usable namespace or inherit it. */
  function VerdictOf(f: Field, env: string): Verdict {
    if !Wellformed(f.value) then Bad
    else if !Active(f.value, env) then Dropped
    else match Pattern(f.value, env)
      case None => Bad
      case Some(pattern) =>
        if ApplyEnv(pattern, env) == INHERIT then Dropped
        else if NamespaceOk(pattern, env) then
          Target(DependencyRef(f.key, ApplyEnv(pattern, env), PortsFor(f.value)))
        else Bad
  }

  /** The targets in document order. */
  function TargetsOf(raw: seq<Field>, env: string): seq<DependencyRef> {
    if raw == [] then []
    else
      TargetsOf(raw[..|raw| - 1], env)
      + match VerdictOf(raw[|raw| - 1], env) case Target(d) => [d] case _ => []
  }

  method ParseDependency(v: Value) returns (r: Result<DepSpec>)
    requires v.Tab? ==> UniqueKeys(v.entries)
    ensures r.Ok? <==> Wellformed(v)
    ensures r.Ok? && v.Str? ==> r.value == DepSpec(Some(v.text), map[], None, None)
    ensures r.Ok? && v.Tab? ==> Describes(r.value, v.entries)
  {
    match v
    case Str(s) => return Ok(DepSpec(Some(s), map[], None, None));
    case Tab(entries) => r := ParseTable(entries);
    case _ => return Err(Rejected);
  }

  method ResolveOne(f: Field, env: string) returns (verdict: Verdict)
    requires f.value.Tab? ==> UniqueKeys(f.value.entries)
    ensures verdict == VerdictOf(f, env)
  {
    var parsed := ParseDependency(f.value);
    if parsed.Err? { return Bad; }
    var spec := parsed.value;
    assert f.value.Tab? ==> At(spec.overrides, env) == Override(f.value.entries, env);
    if spec.envs.Some? && env !in spec.envs.value { return Dropped; }
    var pattern := if env in spec.overrides then Some(spec.overrides[env]) else spec.namespace;
    if pattern.None? { return Bad; }
    var resolved := ApplyEnv(pattern.value, env);
    if resolved == INHERIT { return Dropped; }
    if HasBrace(resolved) || resolved == [] { return Bad; }
    return Target(DependencyRef(f.key, resolved, spec.ports.GetOr([DEFAULT_PORT])));
  }

  /** No entry is bad. */
  predicate DependsOnOk(raw: seq<Field>, env: string) {
    forall i {:trigger VerdictOf(raw[i], env)} | 0 <= i < |raw| :: VerdictOf(raw[i], env) != Bad
  }

  method ResolveDependsOn(raw: seq<Field>, env: string) returns (r: Result<seq<DependencyRef>>)
    requires NestedKeysUnique(raw)
    ensures r.Ok? <==> DependsOnOk(raw, env)
    ensures r.Ok? ==> r.value == TargetsOf(raw, env)
  {
    var out: seq<DependencyRef> := [];
    for i := 0 to |raw|
      invariant DependsOnOk(raw[..i], env)
      invariant out == TargetsOf(raw[..i], env)
    {
      var verdict := ResolveOne(raw[i], env);
      assert raw[..i + 1][..i] == raw[..i];
      match verdict {
        case Bad => return Err(Rejected);
        case Dropped =>
        case Target(d) => out := out + [d];
      }
    }
    assert raw[..|raw|] == raw;
    return Ok(out);
  }

  // ---------- what resolution means ----------

  lemma {:induction false} TargetsComeFromEntries(raw: seq<Field>, env: string, k: nat)
    requires k < |TargetsOf(raw, env)|
    ensures exists i | 0 <= i < |raw| :: VerdictOf(raw[i], env) == Target(TargetsOf(raw, env)[k])
  {
    var last := |raw| - 1;
    if k < |TargetsOf(raw[..last], env)| {
      TargetsComeFromEntries(raw[..last], env, k);
      var i :| 0 <= i < last && VerdictOf(raw[..last][i], env) == Target(TargetsOf(raw[..last], env)[k]);
      assert raw[i] == raw[..last][i];
    } else {
      assert VerdictOf(raw[last], env) == Target(TargetsOf(raw, env)[k]);
    }
  }

  lemma {:induction false} EntriesBecomeTargets(raw: seq<Field>, env: string, i: nat)
    requires i < |raw| && VerdictOf(raw[i], env).Target?
    ensures VerdictOf(raw[i], env).dependency in TargetsOf(raw, env)
  {
    if i < |raw| - 1 { EntriesBecomeTargets(raw[..|raw| - 1], env, i); }
  }

  /** A dependency is resolved exactly when the entry under its name asks for it in this environment. */
  lemma ResolvedIffAsked(raw: seq<Field>, env: string, d: DependencyRef)
    requires UniqueKeys(raw)
    ensures d in TargetsOf(raw, env)
       <==> Lookup(raw, d.name).Some? && VerdictOf(Field(d.name, Lookup(raw, d.name).value), env) == Target(d)
  {
    if d in TargetsOf(raw, env) {
      var k :| 0 <= k < |TargetsOf(raw, env)| && TargetsOf(raw, env)[k] == d;
      TargetsComeFromEntries(raw, env, k);
      var i :| 0 <= i < |raw| && VerdictOf(raw[i], env) == Target(d);
    }
    if Lookup(raw, d.name).Some? && VerdictOf(Field(d.name, Lookup(raw, d.name).value), env) == Target(d) {
      var i :| 0 <= i < |raw| && raw[i] == Field(d.name, Lookup(raw, d.name).value);
      EntriesBecomeTargets(raw, env, i);
    }
  }

  /** Each dependency name comes up at most once, which the wave scheduler relies on. */
  lemma {:induction false} DependenciesUnique(raw: seq<Field>, env: string, plan: Plan)
    requires UniqueKeys(raw) && plan.dependsOn == TargetsOf(raw, env)
    ensures UniqueDependencies(plan)
  {
    if raw != [] {
      var last := |raw| - 1;
      var front := TargetsOf(raw[..last], env);
      DependenciesUnique(raw[..last], env, plan.(dependsOn := front));
      forall a | 0 <= a < |front| ensures front[a].name != raw[last].key {
        TargetsComeFromEntries(raw[..last], env, a);
        var i :| 0 <= i < last && VerdictOf(raw[..last][i], env) == Target(front[a]);
        assert raw[i].key != raw[last].key;
      }
    }
  }

  /** An entry with an override for the environment resolves the same whatever its default namespace is, and one
      without resolves by the default alone: no other environment's namespace can leak in. */
  lemma OnlyOwnNamespaceCounts(name: string, t1: seq<Field>, t2: seq<Field>, env: string)
    requires DepTableOk(t1) && DepTableOk(t2)
    requires EnvsAt(t1) == EnvsAt(t2) && PortsAt(t1) == PortsAt(t2)
    requires Override(t1, env) == Override(t2, env)
    requires Override(t1, env).None? ==> TextAt(t1, "namespace") == TextAt(t2, "namespace")
    ensures VerdictOf(Field(name, Tab(t1)), env) == VerdictOf(Field(name, Tab(t2)), env)
  {
  }
}
