/** Resolving [callers]: who may call this service in one environment. */
module Callers {
  import opened Options
  import opened Placeholders
  import opened Plans
  import opened Sections
  import opened Sorting
  import opened Toml

  const CALLER_KEYS := ["namespace", "labels", "service", "ports"]

  /** A table with none of the caller keys is an environment overlay. */
  predicate IsOverlay(v: Value) {
    v.Tab? && forall i | 0 <= i < |v.entries| :: v.entries[i].key !in CALLER_KEYS
  }

  // ---------- one caller ----------

  predicate IsLabels(v: Value) {
    v.Tab? && v.entries != [] && forall i | 0 <= i < |v.entries| :: v.entries[i].value.Str?
  }

  function LabelMap(entries: seq<Field>): map<string, string>
    requires forall i | 0 <= i < |entries| :: entries[i].value.Str?
  {
    if entries == [] then map[]
    else
      var last := entries[|entries| - 1];
      LabelMap(entries[..|entries| - 1])[last.key := last.value.text]
  }

  predicate CallerKeyOk(f: Field, env: string) {
    match f.key
    case "namespace" => f.value.Str? && NamespaceOk(f.value.text, env)
    case "service" => f.value.Str?
    case "ports" => PortList(f.value).Some?
    case "labels" => IsLabels(f.value)
    case _ => false
  }

  predicate CallerKeysOk(entries: seq<Field>, env: string) {
    forall i | 0 <= i < |entries| :: CallerKeyOk(entries[i], env)
  }

  function NamespaceOf(entries: seq<Field>, env: string): Option<string> {
    match Lookup(entries, "namespace")
    case Some(Str(text)) => Some(ApplyEnv(text, env))
    case _ => None
  }

  function LabelsOf(entries: seq<Field>): Option<map<string, string>> {
    match Lookup(entries, "labels")
    case Some(v) => if IsLabels(v) then Some(LabelMap(v.entries)) else None
    case None => None
  }

  function PortsOf(entries: seq<Field>): seq<nat> {
    match Lookup(entries, "ports")
    case Some(v) => PortList(v).GetOr([])
    case None => []
  }

  /** Labels match pods, with or without a namespace; otherwise the caller is a service and needs one. */
  function SourceOf(name: string, namespace: Option<string>, labels: Option<map<string, string>>,
                    service: Option<string>): Option<CallerSource>
  {
    match (labels, service)
    case (Some(_), Some(_)) => None
    case (Some(ls), None) => Some(Pods(namespace, ls))
    case (None, _) =>
      if namespace.None? then None else Some(Service(ServiceRef(service.GetOr(name), namespace.value)))
  }

  /** The caller an entry describes in an environment; None when the entry is rejected. */
  function CallerOf(name: string, v: Value, env: string): Option<Caller> {
    match v
    case Str(ns) =>
      if NamespaceOk(ns, env) then Some(Caller(name, Service(ServiceRef(name, ApplyEnv(ns, env))), [])) else None
    case Tab(entries) =>
      if !CallerKeysOk(entries, env) then None
      else
        (match SourceOf(name, NamespaceOf(entries, env), LabelsOf(entries), TextAt(entries, "service"))
         case None => None
         case Some(source) => Some(Caller(name, source, PortsOf(entries))))
    case _ => None
  }

  method ResolveNamespace(pattern: string, env: string) returns (r: Result<string>)
    ensures Outcome(r) == if NamespaceOk(pattern, env) then Some(ApplyEnv(pattern, env)) else None
    ensures r.Err? ==> !r.error.UnknownKey?
  {
    var namespace := ApplyEnv(pattern, env);
    if HasBrace(namespace) { return Err(Unresolved); }
    if namespace == [] { return Err(Rejected); }
    return Ok(namespace);
  }

  method ParseLabels(v: Value) returns (r: Result<map<string, string>>)
    ensures Outcome(r) == if IsLabels(v) then Some(LabelMap(v.entries)) else None
    ensures r.Err? ==> r.error == Rejected
  {
    if !v.Tab? || v.entries == [] { return Err(Rejected); }
    var labels: map<string, string> := map[];
    for i := 0 to |v.entries|
      invariant forall j | 0 <= j < i :: v.entries[j].value.Str?
      invariant labels == LabelMap(v.entries[..i])
    {
      if !v.entries[i].value.Str? { return Err(Rejected); }
      assert v.entries[..i + 1][..i] == v.entries[..i];
      labels := labels[v.entries[i].key := v.entries[i].value.text];
    }
    assert v.entries[..|v.entries|] == v.entries;
    return Ok(labels);
  }

  /** What the keys of a caller table say, read one by one. */
  datatype Draft = Draft(namespace: Option<string>, labels: Option<map<string, string>>, service: Option<string>,
                         ports: seq<nat>)

  function DraftOf(entries: seq<Field>, env: string): Draft {
    Draft(NamespaceOf(entries, env), LabelsOf(entries), TextAt(entries, "service"), PortsOf(entries))
  }

  function Noted(draft: Draft, f: Field, env: string): Draft
    requires CallerKeyOk(f, env)
  {
    match f.key
    case "namespace" => draft.(namespace := Some(ApplyEnv(f.value.text, env)))
    case "service" => draft.(service := Some(f.value.text))
    case "ports" => draft.(ports := PortList(f.value).value)
    case _ => draft.(labels := Some(LabelMap(f.value.entries)))
  }

  lemma NextDraft(entries: seq<Field>, i: nat, env: string)
    requires i < |entries| && CallerKeyOk(entries[i], env)
    ensures DraftOf(entries[..i + 1], env) == Noted(DraftOf(entries[..i], env), entries[i], env)
  {
    NextLookup(entries, i, "namespace");
    NextLookup(entries, i, "labels");
    NextLookup(entries, i, "service");
    NextLookup(entries, i, "ports");
  }

  method ReadKey(draft: Draft, f: Field, env: string) returns (r: Result<Draft>)
    ensures r.Ok? <==> CallerKeyOk(f, env)
    ensures r.Ok? ==> r.value == Noted(draft, f, env)
    ensures r.Err? && r.error.UnknownKey? ==> r.error.key == f.key && f.key !in CALLER_KEYS
  {
    match f.key {
      case "namespace" =>
        if !f.value.Str? { return Err(Rejected); }
        var ns := ResolveNamespace(f.value.text, env);
        if ns.Err? { return Err(ns.error); }
        return Ok(draft.(namespace := Some(ns.value)));
      case "service" =>
        if !f.value.Str? { return Err(Rejected); }
        return Ok(draft.(service := Some(f.value.text)));
      case "ports" =>
        var list := ParsePorts(f.value);
        if list.Err? { return Err(list.error); }
        return Ok(draft.(ports := list.value));
      case "labels" =>
        var parsed := ParseLabels(f.value);
        if parsed.Err? { return Err(parsed.error); }
        return Ok(draft.(labels := Some(parsed.value)));
      case _ =>
        return Err(UnknownKey(f.key));
    }
  }

  /** Reads the keys of a caller table in order; the first bad one decides the error. */
  method ReadKeys(entries: seq<Field>, env: string) returns (r: Result<Draft>)
    ensures r.Ok? <==> CallerKeysOk(entries, env)
    ensures r.Ok? ==> r.value == DraftOf(entries, env)
    ensures r.Err? && r.error.UnknownKey? ==> r.error.key !in CALLER_KEYS && Lookup(entries, r.error.key).Some?
  {
    var draft := Draft(None, None, None, []);
    for i := 0 to |entries|
      invariant CallerKeysOk(entries[..i], env)
      invariant draft == DraftOf(entries[..i], env)
    {
      var next := ReadKey(draft, entries[i], env);
      if next.Err? { return Err(next.error); }
      NextDraft(entries, i, env);
      draft := next.value;
    }
    assert entries[..|entries|] == entries;
    return Ok(draft);
  }

  method ParseCaller(name: string, v: Value, env: string) returns (r: Result<Caller>)
    ensures Outcome(r) == CallerOf(name, v, env)
    ensures r.Err? && r.error.UnknownKey? ==>
              v.Tab? && r.error.key !in CALLER_KEYS && Lookup(v.entries, r.error.key).Some?
  {
    match v
    case Str(ns) =>
      var resolved := ResolveNamespace(ns, env);
      if resolved.Err? { return Err(resolved.error); }
      return Ok(Caller(name, Service(ServiceRef(name, resolved.value)), []));
    case Tab(entries) =>
      var draft := ReadKeys(entries, env);
      if draft.Err? { return Err(draft.error); }
      var source := SourceOf(name, draft.value.namespace, draft.value.labels, draft.value.service);
      if source.None? { return Err(Rejected); }
      return Ok(Caller(name, source.value, draft.value.ports));
    case _ => return Err(Rejected);
  }

  // ---------- the section ----------

  predicate OverlayEntryOk(f: Field, env: string) {
    !IsOverlay(f.value) && CallerOf(f.key, f.value, env).Some?
  }

  /** A base entry, or an overlay (for any environment) whose entries are all callers. */
  predicate EntryOk(f: Field, env: string) {
    if IsOverlay(f.value) then forall i | 0 <= i < |f.value.entries| :: OverlayEntryOk(f.value.entries[i], env)
    else CallerOf(f.key, f.value, env).Some?
  }

  predicate CallersOk(raw: seq<Field>, env: string) {
    forall i | 0 <= i < |raw| :: EntryOk(raw[i], env)
  }

  /** The entry that describes a caller in an environment: the overlay's if it has one, else the base entry. */
  function Chosen(raw: seq<Field>, env: string, name: string): Option<Value> {
    var overlaid := match Lookup(raw, env)
                    case Some(v) => if IsOverlay(v) then Lookup(v.entries, name) else None
                    case None => None;
    if overlaid.Some? then overlaid
    else match Lookup(raw, name)
      case Some(v) => if IsOverlay(v) then None else Some(v)
      case None => None
  }

  /** Exactly the callers chosen for the environment, each as its own entry describes it. */
  ghost predicate Resolves(raw: seq<Field>, env: string, callers: map<string, Caller>) {
    && (forall name: string :: name in callers <==> Chosen(raw, env, name).Some?)
    && (forall name: string | name in callers ::
          CallerOf(name, Chosen(raw, env, name).value, env) == Some(callers[name]))
  }

  function NameOf(): Caller -> string {
    (caller: Caller) => caller.name
  }

  predicate IsChosen(raw: seq<Field>, env: string, caller: Caller) {
    && Chosen(raw, env, caller.name).Some?
    && CallerOf(caller.name, Chosen(raw, env, caller.name).value, env) == Some(caller)
  }

  /** The same as a list, by name. */
  ghost predicate IsResolution(raw: seq<Field>, env: string, callers: seq<Caller>) {
    Ascending(callers, NameOf()) && forall caller: Caller :: caller in callers <==> IsChosen(raw, env, caller)
  }

  /** The callers of the entries read so far, by name. */
  ghost predicate Collected(entries: seq<Field>, env: string, callers: map<string, Caller>) {
    forall name: string {:trigger CollectedAs(BaseEntry(entries, name), env, callers, name)} ::
      CollectedAs(BaseEntry(entries, name), env, callers, name)
  }

  ghost predicate CollectedAs(entry: Option<Value>, env: string, callers: map<string, Caller>, name: string) {
    && (name in callers <==> entry.Some?)
    && (entry.Some? ==> CallerOf(name, entry.value, env) == Some(callers[name]))
  }

  function BaseEntry(entries: seq<Field>, name: string): Option<Value> {
    match Lookup(entries, name)
    case Some(v) => if IsOverlay(v) then None else Some(v)
    case None => None
  }

  lemma NextCollected(entries: seq<Field>, i: nat, env: string, callers: map<string, Caller>, caller: Caller)
    requires UniqueKeys(entries) && i < |entries| && Collected(entries[..i], env, callers)
    requires !IsOverlay(entries[i].value) && CallerOf(entries[i].key, entries[i].value, env) == Some(caller)
    ensures Collected(entries[..i + 1], env, callers[entries[i].key := caller])
  {
    var next := callers[entries[i].key := caller];
    var read := entries[..i + 1];
    forall name: string ensures CollectedAs(BaseEntry(read, name), env, next, name) {
      NextLookup(entries, i, name);
      assert CollectedAs(BaseEntry(entries[..i], name), env, callers, name);
    }
  }

  lemma SkipCollected(entries: seq<Field>, i: nat, env: string, callers: map<string, Caller>)
    requires UniqueKeys(entries) && i < |entries| && Collected(entries[..i], env, callers)
    requires IsOverlay(entries[i].value)
    ensures Collected(entries[..i + 1], env, callers)
  {
    assert Lookup(entries[..i], entries[i].key).None?;
    var read := entries[..i + 1];
    forall name: string ensures CollectedAs(BaseEntry(read, name), env, callers, name) {
      NextLookup(entries, i, name);
      assert CollectedAs(BaseEntry(entries[..i], name), env, callers, name);
    }
  }

  /** The entries of one [callers.<env>] table, all checked in the environment being resolved. */
  method ParseOverlay(entries: seq<Field>, env: string) returns (r: Result<map<string, Caller>>)
    requires UniqueKeys(entries)
    ensures r.Ok? <==> forall i | 0 <= i < |entries| :: OverlayEntryOk(entries[i], env)
    ensures r.Ok? ==> Collected(entries, env, r.value)
    ensures r.Err? && r.error.UnknownKey? ==> exists i | 0 <= i < |entries| :: NamesUnknownKey(entries[i], r.error)
  {
    var callers: map<string, Caller> := map[];
    for i := 0 to |entries|
      invariant forall j | 0 <= j < i :: OverlayEntryOk(entries[j], env)
      invariant Collected(entries[..i], env, callers)
    {
      if IsOverlay(entries[i].value) { return Err(Rejected); }
      var caller := ParseCaller(entries[i].key, entries[i].value, env);
      if caller.Err? { return Err(caller.error); }
      NextCollected(entries, i, env, callers, caller.value);
      callers := callers[entries[i].key := caller.value];
    }
    assert entries[..|entries|] == entries;
    return Ok(callers);
  }

  /** An unknown-key error points at a key of the entry that is not a caller key. */
  ghost predicate NamesUnknownKey(f: Field, e: Error) {
    e.UnknownKey? && f.value.Tab? && e.key !in CALLER_KEYS && Lookup(f.value.entries, e.key).Some?
  }

  ghost predicate UnknownKeyUnder(f: Field, e: Error) {
    if IsOverlay(f.value) then exists i | 0 <= i < |f.value.entries| :: NamesUnknownKey(f.value.entries[i], e)
    else NamesUnknownKey(f, e)
  }

  /** The overlay selected among the entries read so far. */
  function OverlayFor(raw: seq<Field>, env: string): seq<Field> {
    match Lookup(raw, env)
    case Some(v) => if IsOverlay(v) then v.entries else []
    case None => []
  }

  /** What one entry of the section contributes. */
  datatype Parsed = BaseCaller(caller: Caller) | OverlayCallers(callers: map<string, Caller>)

  ghost predicate Parses(f: Field, env: string, parsed: Parsed) {
    match parsed
    case BaseCaller(caller) => !IsOverlay(f.value) && CallerOf(f.key, f.value, env) == Some(caller)
    case OverlayCallers(callers) => IsOverlay(f.value) && Collected(f.value.entries, env, callers)
  }

  method ParseEntry(f: Field, env: string) returns (r: Result<Parsed>)
    requires f.value.Tab? ==> UniqueKeys(f.value.entries)
    ensures r.Ok? <==> EntryOk(f, env)
    ensures r.Ok? ==> Parses(f, env, r.value)
    ensures r.Err? && r.error.UnknownKey? ==> UnknownKeyUnder(f, r.error)
  {
    if IsOverlay(f.value) {
      var parsed := ParseOverlay(f.value.entries, env);
      if parsed.Err? { return Err(parsed.error); }
      return Ok(OverlayCallers(parsed.value));
    }
    var caller := ParseCaller(f.key, f.value, env);
    if caller.Err? { return Err(caller.error); }
    return Ok(BaseCaller(caller.value));
  }

  method ResolveCallers(raw: seq<Field>, env: string) returns (r: Result<seq<Caller>>)
    requires UniqueKeys(raw) && NestedKeysUnique(raw)
    ensures r.Ok? <==> CallersOk(raw, env)
    ensures r.Ok? ==> IsResolution(raw, env, r.value)
    ensures r.Err? && r.error.UnknownKey? ==> exists i | 0 <= i < |raw| :: UnknownKeyUnder(raw[i], r.error)
  {
    var base: map<string, Caller> := map[];
    var overlay: map<string, Caller> := map[];
    for i := 0 to |raw|
      invariant ReadSoFar(raw[..i], env, base, overlay)
    {
      var entry := ParseEntry(raw[i], env);
      if entry.Err? { return Err(entry.error); }
      ReadsOn(raw, i, env, base, overlay, entry.value);
      match entry.value {
        case BaseCaller(caller) => base := base[raw[i].key := caller];
        case OverlayCallers(callers) =>
          if raw[i].key == env { overlay := callers; }
      }
    }
    assert raw[..|raw|] == raw;
    Merged(raw, env, base, overlay);
    var callers := base + overlay;
    Named(raw, env, callers);
    var list := ListByKey(callers, NameOf());
    Listed(raw, env, callers, list);
    return Ok(list);
  }

  lemma Named(raw: seq<Field>, env: string, callers: map<string, Caller>)
    requires Resolves(raw, env, callers)
    ensures forall name | name in callers :: NameOf()(callers[name]) == name
  {
    forall name | name in callers ensures callers[name].name == name {
      assert CallerOf(name, Chosen(raw, env, name).value, env) == Some(callers[name]);
    }
  }

  lemma Listed(raw: seq<Field>, env: string, callers: map<string, Caller>, list: seq<Caller>)
    requires Resolves(raw, env, callers) && Ascending(list, NameOf())
    requires forall c :: c in list <==> NameOf()(c) in callers && callers[NameOf()(c)] == c
    ensures IsResolution(raw, env, list)
  {
    forall c: Caller ensures c in list <==> IsChosen(raw, env, c) {
      assert NameOf()(c) == c.name;
    }
  }

  /** Every entry read is good, and the two maps hold the base callers and the selected overlay's. */
  ghost predicate ReadSoFar(raw: seq<Field>, env: string, base: map<string, Caller>, overlay: map<string, Caller>) {
    CallersOk(raw, env) && Collected(raw, env, base) && Collected(OverlayFor(raw, env), env, overlay)
  }

  lemma ReadsOn(raw: seq<Field>, i: nat, env: string, base: map<string, Caller>, overlay: map<string, Caller>,
                parsed: Parsed)
    requires UniqueKeys(raw) && i < |raw| && ReadSoFar(raw[..i], env, base, overlay)
    requires EntryOk(raw[i], env) && Parses(raw[i], env, parsed)
    ensures parsed.BaseCaller? ==> ReadSoFar(raw[..i + 1], env, base[raw[i].key := parsed.caller], overlay)
    ensures parsed.OverlayCallers? ==>
              ReadSoFar(raw[..i + 1], env, base, if raw[i].key == env then parsed.callers else overlay)
  {
    NextOverlay(raw, i, env);
    var read := raw[..i + 1];
    forall j | 0 <= j < |read| ensures EntryOk(read[j], env) {
      assert j < i ==> read[j] == raw[..i][j];
    }
    match parsed
    case BaseCaller(caller) => NextCollected(raw, i, env, base, caller);
    case OverlayCallers(_) => SkipCollected(raw, i, env, base);
  }

  lemma NextOverlay(raw: seq<Field>, i: nat, env: string)
    requires UniqueKeys(raw) && i < |raw|
    ensures OverlayFor(raw[..i + 1], env)
         == if raw[i].key == env && IsOverlay(raw[i].value) then raw[i].value.entries else OverlayFor(raw[..i], env)
  {
    NextLookup(raw, i, env);
  }

  lemma Merged(raw: seq<Field>, env: string, base: map<string, Caller>, overlay: map<string, Caller>)
    requires CallersOk(raw, env)
    requires Collected(raw, env, base) && Collected(OverlayFor(raw, env), env, overlay)
    ensures Resolves(raw, env, base + overlay)
  {
    var o := OverlayFor(raw, env);
    forall i | 0 <= i < |o| ensures !IsOverlay(o[i].value) {
      var at :| 0 <= at < |raw| && raw[at] == Field(env, Lookup(raw, env).value);
      assert EntryOk(raw[at], env);
      assert OverlayEntryOk(o[i], env);
    }
    forall name: string
      ensures name in base + overlay <==> Chosen(raw, env, name).Some?
      ensures name in base + overlay ==>
                CallerOf(name, Chosen(raw, env, name).value, env) == Some((base + overlay)[name])
    {
      assert BaseEntry(o, name) == Lookup(o, name);
      assert CollectedAs(BaseEntry(raw, name), env, base, name);
      assert CollectedAs(BaseEntry(o, name), env, overlay, name);
    }
  }

  // ---------- what resolution depends on ----------

  lemma KeysOkSameKind(entries: seq<Field>, e1: string, e2: string)
    requires Kind(e1) == Kind(e2)
    ensures CallerKeysOk(entries, e1) == CallerKeysOk(entries, e2)
  {
    forall i | 0 <= i < |entries| ensures CallerKeyOk(entries[i], e1) == CallerKeyOk(entries[i], e2) {
      if entries[i].value.Str? { SameKindSameVerdict(entries[i].value.text, e1, e2); }
    }
  }

  lemma CallerOkSameKind(name: string, v: Value, e1: string, e2: string)
    requires Kind(e1) == Kind(e2)
    ensures CallerOf(name, v, e1).Some? == CallerOf(name, v, e2).Some?
  {
    match v {
      case Str(ns) => SameKindSameVerdict(ns, e1, e2);
      case Tab(entries) => KeysOkSameKind(entries, e1, e2);
      case _ =>
    }
  }

  /** [callers] is accepted or rejected alike in any two environments of the same kind, in particular for any two
      non-empty names without braces: a mistake in one overlay fails everywhere. */
  lemma CallersVerdictSameForAllEnvs(raw: seq<Field>, e1: string, e2: string)
    requires Kind(e1) == Kind(e2)
    ensures CallersOk(raw, e1) == CallersOk(raw, e2)
  {
    forall i | 0 <= i < |raw| ensures EntryOk(raw[i], e1) == EntryOk(raw[i], e2) {
      if IsOverlay(raw[i].value) {
        var inner := raw[i].value.entries;
        forall k | 0 <= k < |inner| ensures OverlayEntryOk(inner[k], e1) == OverlayEntryOk(inner[k], e2) {
          CallerOkSameKind(inner[k].key, inner[k].value, e1, e2);
        }
      } else {
        CallerOkSameKind(raw[i].key, raw[i].value, e1, e2);
      }
    }
  }

  /** Two sections with the same base entries and the same overlay for env resolve alike there, whatever their
      other overlays say. */
  lemma OnlyBaseAndOwnOverlayCount(raw1: seq<Field>, raw2: seq<Field>, env: string,
                                   callers1: seq<Caller>, callers2: seq<Caller>)
    requires IsResolution(raw1, env, callers1) && IsResolution(raw2, env, callers2)
    requires forall name: string :: BaseEntry(raw1, name) == BaseEntry(raw2, name)
    requires OverlayFor(raw1, env) == OverlayFor(raw2, env)
    ensures callers1 == callers2
  {
    forall name: string ensures Chosen(raw1, env, name) == Chosen(raw2, env, name) {
      var own := Lookup(OverlayFor(raw1, env), name);
      assert Chosen(raw1, env, name) == if own.Some? then own else BaseEntry(raw1, name);
      assert Chosen(raw2, env, name) == if own.Some? then own else BaseEntry(raw2, name);
    }
    forall c: Caller ensures c in callers1 <==> c in callers2 {
      assert IsChosen(raw1, env, c) == IsChosen(raw2, env, c);
    }
    AscendingEqual(callers1, callers2, NameOf());
  }
}
