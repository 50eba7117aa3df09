/** What an entry of [callers] means, read off its keys alone. */
module CallerEntries {
  import opened Options
  import opened Placeholders
  import opened Plans
  import opened Sections
  import opened Toml
  import C = Callers

  /** The pattern resolves to a namespace in the environment. */
  predicate Usable(pattern: string, env: string) {
    ApplyEnv(pattern, env) != [] && '{' !in ApplyEnv(pattern, env) && '}' !in ApplyEnv(pattern, env)
  }

  /** The caller's labels are exactly the texts of a non-empty table. */
  ghost predicate NamesLabels(v: Value, labels: map<string, string>) {
    && v.Tab? && v.entries != [] && (forall i | 0 <= i < |v.entries| :: v.entries[i].value.Str?)
    && (forall key: string :: At(labels, key) == TextAt(v.entries, key))
  }

  /** The entry is a namespace text, or a table of caller keys of the right kind that has labels or else a namespace,
      and not both labels and a service. */
  ghost predicate Acceptable(v: Value, env: string) {
    match v
    case Str(text) => Usable(text, env)
    case Tab(entries) =>
      && (forall i | 0 <= i < |entries| :: entries[i].key in {"namespace", "labels", "service", "ports"})
      && (match Lookup(entries, "namespace") case Some(ns) => ns.Str? && Usable(ns.text, env) case None => true)
      && (match Lookup(entries, "labels") case Some(ls) => exists labels :: NamesLabels(ls, labels) case None => true)
      && (match Lookup(entries, "service") case Some(service) => service.Str? case None => true)
      && (match Lookup(entries, "ports") case Some(list) => exists ports :: NamesPorts(list, ports) case None => true)
      && (Lookup(entries, "labels").None? || Lookup(entries, "service").None?)
      && (Lookup(entries, "labels").Some? || Lookup(entries, "namespace").Some?)
    case _ => false
  }

  /** A text is the service of the entry's name in that namespace. Without labels a table is the service it names, or
      else of the entry's name, in its namespace; with labels it is the pods that carry exactly them, in its namespace
      if it gives one. The ports are those it lists. */
  ghost predicate Means(name: string, v: Value, env: string, caller: Caller) {
    && caller.name == name
    && match v
       case Str(text) => caller.source == Service(ServiceRef(name, ApplyEnv(text, env))) && caller.ports == []
       case Tab(entries) =>
         && SourceMeans(name, entries, env, caller.source)
         && (match Lookup(entries, "ports")
             case Some(list) => NamesPorts(list, caller.ports)
             case None => caller.ports == [])
       case _ => false
  }

  ghost predicate SourceMeans(name: string, entries: seq<Field>, env: string, source: CallerSource) {
    match Lookup(entries, "labels")
    case None =>
      && TextAt(entries, "namespace").Some?
      && source == Service(ServiceRef(match TextAt(entries, "service") case Some(service) => service case None => name,
                                      ApplyEnv(TextAt(entries, "namespace").value, env)))
    case Some(ls) =>
      && source.Pods? && NamesLabels(ls, source.labels)
      && source.namespace == (match TextAt(entries, "namespace")
                              case Some(text) => Some(ApplyEnv(text, env))
                              case None => None)
  }

  lemma UsableIsOk(pattern: string, env: string)
    ensures NamespaceOk(pattern, env) <==> Usable(pattern, env)
  {
    var ns := ApplyEnv(pattern, env);
    assert '{' in ns || '}' in ns ==> exists i | 0 <= i < |ns| :: IsBrace(ns[i]);
  }

  lemma {:induction false} LabelTexts(entries: seq<Field>, key: string)
    requires forall i | 0 <= i < |entries| :: entries[i].value.Str?
    ensures At(C.LabelMap(entries), key) == TextAt(entries, key)
  {
    if entries != [] { LabelTexts(entries[..|entries| - 1], key); }
  }

  lemma LabelsAre(v: Value)
    ensures C.IsLabels(v) ==> NamesLabels(v, C.LabelMap(v.entries))
    ensures (exists labels :: NamesLabels(v, labels)) ==> C.IsLabels(v)
  {
    if C.IsLabels(v) {
      forall key: string ensures At(C.LabelMap(v.entries), key) == TextAt(v.entries, key) {
        LabelTexts(v.entries, key);
      }
    }
  }

  lemma PortsAre(v: Value)
    ensures PortList(v).Some? <==> exists ports :: NamesPorts(v, ports)
  {
    if PortList(v).Some? { PortListNames(v, PortList(v).value); }
    if ports :| NamesPorts(v, ports) { PortListNames(v, ports); }
  }

  /** A key's value is good exactly when what Acceptable asks of the key holds. */
  lemma KeyOkIs(f: Field, env: string)
    ensures f.key == "namespace" ==> (C.CallerKeyOk(f, env) <==> f.value.Str? && Usable(f.value.text, env))
    ensures f.key == "labels" ==> (C.CallerKeyOk(f, env) <==> exists labels :: NamesLabels(f.value, labels))
    ensures f.key == "service" ==> (C.CallerKeyOk(f, env) <==> f.value.Str?)
    ensures f.key == "ports" ==> (C.CallerKeyOk(f, env) <==> exists ports :: NamesPorts(f.value, ports))
    ensures C.CallerKeyOk(f, env) ==> f.key in {"namespace", "labels", "service", "ports"}
  {
    if f.value.Str? { UsableIsOk(f.value.text, env); }
    LabelsAre(f.value);
    PortsAre(f.value);
  }

  lemma FoundKeyIs(entries: seq<Field>, env: string, i: nat)
    requires UniqueKeys(entries) && i < |entries|
    ensures Lookup(entries, entries[i].key) == Some(entries[i].value)
  {
  }

  lemma TableAccepted(name: string, entries: seq<Field>, env: string)
    requires UniqueKeys(entries)
    ensures C.CallerOf(name, Tab(entries), env).Some? ==> Acceptable(Tab(entries), env)
    ensures Acceptable(Tab(entries), env) ==> C.CallerOf(name, Tab(entries), env).Some?
  {
    if C.CallerKeysOk(entries, env) {
      forall i | 0 <= i < |entries| ensures entries[i].key in {"namespace", "labels", "service", "ports"} {
        KeyOkIs(entries[i], env);
      }
      FoundAcceptable(entries, env);
      if Lookup(entries, "labels").Some? { LabelsAre(Lookup(entries, "labels").value); }
      if Lookup(entries, "ports").Some? { PortsAre(Lookup(entries, "ports").value); }
    }
    if Acceptable(Tab(entries), env) {
      forall i | 0 <= i < |entries| ensures C.CallerKeyOk(entries[i], env) {
        FoundKeyIs(entries, env, i);
        KeyOkIs(entries[i], env);
      }
      FoundAcceptable(entries, env);
    }
  }

  lemma FoundKeyOk(entries: seq<Field>, env: string, key: string)
    requires C.CallerKeysOk(entries, env) && Lookup(entries, key).Some?
    ensures C.CallerKeyOk(Field(key, Lookup(entries, key).value), env)
  {
  }

  /** What good keys say; only their combination is left to judge. */
  ghost predicate FoundGood(entries: seq<Field>, env: string) {
    && (match Lookup(entries, "namespace") case Some(ns) => ns.Str? && Usable(ns.text, env) case None => true)
    && (match Lookup(entries, "labels") case Some(ls) => C.IsLabels(ls) case None => true)
    && (match Lookup(entries, "service") case Some(service) => service.Str? case None => true)
    && (match Lookup(entries, "ports") case Some(list) => PortList(list).Some? case None => true)
  }

  lemma FoundAcceptable(entries: seq<Field>, env: string)
    requires C.CallerKeysOk(entries, env)
    ensures FoundGood(entries, env)
  {
    if Lookup(entries, "namespace").Some? {
      FoundKeyOk(entries, env, "namespace");
      UsableIsOk(Lookup(entries, "namespace").value.text, env);
    }
    if Lookup(entries, "labels").Some? { FoundKeyOk(entries, env, "labels"); }
    if Lookup(entries, "service").Some? { FoundKeyOk(entries, env, "service"); }
    if Lookup(entries, "ports").Some? { FoundKeyOk(entries, env, "ports"); }
  }

  /** Exactly the acceptable entries are accepted. */
  lemma AcceptedExactlyWhen(name: string, v: Value, env: string)
    requires v.Tab? ==> UniqueKeys(v.entries)
    ensures C.CallerOf(name, v, env).Some? <==> Acceptable(v, env)
  {
    match v
    case Str(text) => UsableIsOk(text, env);
    case Tab(entries) => TableAccepted(name, entries, env);
    case _ =>
  }

  /** And each gives the caller it means. */
  lemma CallerMeans(name: string, v: Value, env: string, caller: Caller)
    requires C.CallerOf(name, v, env) == Some(caller)
    ensures Means(name, v, env, caller)
  {
    if v.Tab? {
      FoundAcceptable(v.entries, env);
      if Lookup(v.entries, "labels").Some? { LabelsAre(Lookup(v.entries, "labels").value); }
      if Lookup(v.entries, "ports").Some? {
        PortListNames(Lookup(v.entries, "ports").value, caller.ports);
      }
    }
  }

  /** A table without any of the caller keys holds the entries of one environment. */
  ghost predicate IsOverlay(v: Value) {
    v.Tab? && Lookup(v.entries, "namespace").None? && Lookup(v.entries, "labels").None?
    && Lookup(v.entries, "service").None? && Lookup(v.entries, "ports").None?
  }

  /** The entry that describes a caller: the one in the environment's own overlay, or else the base one. */
  ghost predicate Describes(raw: seq<Field>, env: string, name: string, v: Value) {
    var overlay := Lookup(raw, env);
    if overlay.Some? && IsOverlay(overlay.value) && Lookup(overlay.value.entries, name).Some?
    then Lookup(overlay.value.entries, name) == Some(v)
    else Lookup(raw, name) == Some(v) && !IsOverlay(v)
  }

  lemma OverlayIs(v: Value)
    ensures C.IsOverlay(v) <==> IsOverlay(v)
  {
    if v.Tab? && !C.IsOverlay(v) {
      var i :| 0 <= i < |v.entries| && v.entries[i].key in C.CALLER_KEYS;
      assert Lookup(v.entries, v.entries[i].key).Some?;
    }
  }

  lemma ChosenDescribes(raw: seq<Field>, env: string, name: string, v: Value)
    ensures C.Chosen(raw, env, name) == Some(v) <==> Describes(raw, env, name, v)
  {
    OverlayIs(v);
    if Lookup(raw, env).Some? { OverlayIs(Lookup(raw, env).value); }
    if Lookup(raw, name).Some? { OverlayIs(Lookup(raw, name).value); }
  }

  /** Every caller of a resolved list is what its chosen entry means. */
  lemma ResolvedCallerMeans(raw: seq<Field>, env: string, callers: seq<Caller>, caller: Caller)
    requires C.IsResolution(raw, env, callers) && caller in callers
    ensures exists v :: Describes(raw, env, caller.name, v) && Means(caller.name, v, env, caller)
  {
    assert C.IsChosen(raw, env, caller);
    var v := C.Chosen(raw, env, caller.name).value;
    ChosenDescribes(raw, env, caller.name, v);
    CallerMeans(caller.name, v, env, caller);
  }
}
