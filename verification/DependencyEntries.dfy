/** What an entry of [depends_on] means, read off its keys alone. */
module DependencyEntries {
  import opened Options
  import opened Placeholders
  import opened Plans
  import opened Sections
  import opened Toml
  import opened CallerEntries
  import D = Dependencies

  /** The value is an array of exactly these environment names. */
  ghost predicate NamesEnvs(v: Value, envs: seq<string>) {
    && Elements(v).Some? && |envs| == |Elements(v).value|
    && (forall i | 0 <= i < |envs| :: Elements(v).value[i] == Str(envs[i]))
  }

  ghost predicate KeyTyped(f: Field) {
    match f.key
    case "port" => f.value.Int? && 1 <= f.value.number <= 65535
    case "ports" => exists ports :: NamesPorts(f.value, ports)
    case "envs" => exists envs :: NamesEnvs(f.value, envs)
    case _ => f.value.Str?
  }

  /** Every key has a value of its kind, and port and ports are not given both. */
  ghost predicate Typed(v: Value) {
    match v
    case Str(_) => true
    case Tab(entries) =>
      && (forall i | 0 <= i < |entries| :: KeyTyped(entries[i]))
      && !(Lookup(entries, "port").Some? && Lookup(entries, "ports").Some?)
    case _ => false
  }

  /** The entry is meant for the environment: it lists it, or lists none. */
  ghost predicate MeantFor(v: Value, env: string) {
    v.Tab? && Lookup(v.entries, "envs").Some? ==>
      exists envs :: NamesEnvs(Lookup(v.entries, "envs").value, envs) && env in envs
  }

  /** The text is the namespace pattern for the environment: the text itself, the environment's own key if that is none
      of the four keys with another meaning, or else the default. */
  ghost predicate PatternIs(v: Value, env: string, text: string) {
    match v
    case Str(s) => text == s
    case Tab(entries) =>
      if env !in {"namespace", "port", "ports", "envs"} && Lookup(entries, env).Some?
      then Lookup(entries, env) == Some(Str(text))
      else Lookup(entries, "namespace") == Some(Str(text))
    case _ => false
  }

  /** The ports to reach the dependency on: the one, the listed ones, or the default one. */
  ghost predicate PortsAre(v: Value, ports: seq<nat>) {
    if v.Tab? && Lookup(v.entries, "port").Some? then
      |ports| == 1 && Lookup(v.entries, "port") == Some(Int(ports[0]))
    else if v.Tab? && Lookup(v.entries, "ports").Some? then NamesPorts(Lookup(v.entries, "ports").value, ports)
    else ports == [50051]
  }

  /** The entry asks for this dependency in the environment. */
  ghost predicate AsksFor(name: string, v: Value, env: string, d: DependencyRef) {
    && Typed(v) && MeantFor(v, env) && d.name == name && PortsAre(v, d.ports)
    && (exists text :: PatternIs(v, env, text) && d.namespace == ApplyEnv(text, env)
                       && Usable(text, env) && d.namespace != "@inherit")
  }

  /** The entry asks for nothing there: it is meant for other environments, or leaves the namespace to the deploy. */
  ghost predicate AsksNothing(v: Value, env: string) {
    Typed(v) && (!MeantFor(v, env) || exists text :: PatternIs(v, env, text) && ApplyEnv(text, env) == "@inherit")
  }

  lemma EnvsOf(v: Value)
    ensures D.TextsOf(v).Some? ==> NamesEnvs(v, D.TextsOf(v).value)
    ensures forall envs :: NamesEnvs(v, envs) ==> D.TextsOf(v) == Some(envs)
  {
    forall envs | NamesEnvs(v, envs) ensures D.TextsOf(v) == Some(envs) {
      assert D.AllTexts(Elements(v).value);
      assert D.TextsOf(v).value == envs;
    }
  }

  lemma PortsOf(v: Value)
    ensures PortList(v).Some? ==> NamesPorts(v, PortList(v).value)
    ensures forall ports :: NamesPorts(v, ports) ==> PortList(v) == Some(ports)
  {
    if PortList(v).Some? { PortListNames(v, PortList(v).value); }
    forall ports | NamesPorts(v, ports) ensures PortList(v) == Some(ports) { PortListNames(v, ports); }
  }

  lemma KeyTypedIs(f: Field)
    ensures KeyTyped(f) <==> D.DepKeyOk(f)
  {
    EnvsOf(f.value);
    PortsOf(f.value);
  }

  lemma TypedIs(v: Value)
    ensures Typed(v) <==> D.Wellformed(v)
  {
    if v.Tab? {
      forall i | 0 <= i < |v.entries| ensures KeyTyped(v.entries[i]) <==> D.DepKeyOk(v.entries[i]) {
        KeyTypedIs(v.entries[i]);
      }
    }
  }

  lemma FoundTyped(entries: seq<Field>, key: string)
    requires D.DepKeysOk(entries) && Lookup(entries, key).Some?
    ensures D.DepKeyOk(Field(key, Lookup(entries, key).value))
  {
  }

  lemma ActiveIs(v: Value, env: string)
    requires D.Wellformed(v)
    ensures MeantFor(v, env) <==> D.Active(v, env)
  {
    if v.Tab? && Lookup(v.entries, "envs").Some? {
      FoundTyped(v.entries, "envs");
      EnvsOf(Lookup(v.entries, "envs").value);
    }
  }

  lemma PatternFound(v: Value, env: string)
    requires D.Wellformed(v)
    ensures forall text :: PatternIs(v, env, text) <==> D.Pattern(v, env) == Some(text)
  {
    if v.Tab? {
      if Lookup(v.entries, env).Some? { FoundTyped(v.entries, env); }
      if Lookup(v.entries, "namespace").Some? { FoundTyped(v.entries, "namespace"); }
      assert env in D.RESERVED <==> env in {"namespace", "port", "ports", "envs"};
    }
  }

  lemma PortsFound(v: Value)
    requires D.Wellformed(v)
    ensures forall ports :: PortsAre(v, ports) <==> D.PortsFor(v) == ports
  {
    if v.Tab? {
      if Lookup(v.entries, "port").Some? { FoundTyped(v.entries, "port"); }
      if Lookup(v.entries, "ports").Some? {
        FoundTyped(v.entries, "ports");
        PortsOf(Lookup(v.entries, "ports").value);
      }
    }
    forall ports ensures PortsAre(v, ports) <==> D.PortsFor(v) == ports {
      if v.Tab? && Lookup(v.entries, "port").Some? && PortsAre(v, ports) { assert ports == [ports[0]]; }
    }
  }

  /** An entry gives exactly the dependency it asks for, nothing exactly when it asks for nothing, and is bad else. */
  lemma VerdictMeans(f: Field, env: string)
    ensures forall d :: D.VerdictOf(f, env) == D.Target(d) <==> AsksFor(f.key, f.value, env, d)
    ensures D.VerdictOf(f, env) == D.Dropped <==> AsksNothing(f.value, env)
  {
    TypedIs(f.value);
    if D.Wellformed(f.value) {
      ActiveIs(f.value, env);
      PatternFound(f.value, env);
      PortsFound(f.value);
      if D.Pattern(f.value, env).Some? {
        UsableIsOk(D.Pattern(f.value, env).value, env);
        assert PatternIs(f.value, env, D.Pattern(f.value, env).value);
      }
    }
  }

  /** The dependencies resolved for an environment are exactly those the entries under their names ask for. */
  lemma ResolvedMeans(raw: seq<Field>, env: string, d: DependencyRef)
    requires UniqueKeys(raw)
    ensures d in D.TargetsOf(raw, env)
       <==> Lookup(raw, d.name).Some? && AsksFor(d.name, Lookup(raw, d.name).value, env, d)
  {
    D.ResolvedIffAsked(raw, env, d);
    if Lookup(raw, d.name).Some? { VerdictMeans(Field(d.name, Lookup(raw, d.name).value), env); }
  }

  /** Resolution succeeds exactly if every entry asks for a dependency or for nothing. */
  lemma ResolvesExactlyWhen(raw: seq<Field>, env: string)
    ensures D.DependsOnOk(raw, env)
       <==> forall i | 0 <= i < |raw| ::
              AsksNothing(raw[i].value, env) || exists d :: AsksFor(raw[i].key, raw[i].value, env, d)
  {
    forall i | 0 <= i < |raw|
      ensures D.VerdictOf(raw[i], env) != D.Bad
         <==> AsksNothing(raw[i].value, env) || exists d :: AsksFor(raw[i].key, raw[i].value, env, d) {
      VerdictMeans(raw[i], env);
      if D.VerdictOf(raw[i], env).Target? {
        assert AsksFor(raw[i].key, raw[i].value, env, D.VerdictOf(raw[i], env).dependency);
      }
    }
  }
}
