/** Resolving [egress]: non-service destinations a service may reach in one environment. */
module Egress {
  import opened Options
  import opened Ranges
  import opened Sections
  import opened Toml

  const EGRESS_KEYS := ["fqdns", "cidrs", "kube_apiserver"]
  const FQDN_KEYS := ["name", "pattern", "ports"]
  const CIDR_KEYS := ["cidr", "except", "ports"]

  datatype Fqdn = Fqdn(name: Option<string>, pattern: Option<string>, ports: seq<nat>)

  datatype Cidr = Cidr(cidr: string, except: seq<string>, ports: seq<nat>)

  datatype EgressSpec = EgressSpec(fqdns: seq<Fqdn>, cidrs: seq<Cidr>, kubeApiserver: bool)

  const NOTHING := EgressSpec([], [], false)

  /** Which texts are address ranges. */
  type RangeCheck = string -> bool

  // ---------- texts ----------

  predicate IsDnsChar(c: char) {
    'a' <= c <= 'z' || 'A' <= c <= 'Z' || '0' <= c <= '9' || c == '-' || c == '.'
  }

  predicate ValidDnsChars(s: string, allowWildcard: bool) {
    s != [] && forall i | 0 <= i < |s| :: IsDnsChar(s[i]) || (allowWildcard && s[i] == '*')
  }

  // ---------- entries ----------

  predicate HasStrangeKey(v: Value, keys: seq<string>, key: string) {
    v.Tab? && key !in keys && Lookup(v.entries, key).Some?
  }

  predicate FqdnKeyOk(f: Field) {
    match f.key
    case "name" => f.value.Str? && ValidDnsChars(f.value.text, false)
    case "pattern" => f.value.Str? && ValidDnsChars(f.value.text, true)
    case "ports" => PortList(f.value).Some?
    case _ => false
  }

  function PortsAt(entries: seq<Field>): Option<seq<nat>> {
    match Lookup(entries, "ports") case Some(v) => PortList(v) case None => None
  }

  predicate FqdnKeysOk(entries: seq<Field>) {
    forall i | 0 <= i < |entries| :: FqdnKeyOk(entries[i])
  }

  /** The destination a table describes: known keys, exactly one of name and pattern, and ports. */
  function FqdnOf(v: Value): Option<Fqdn> {
    if !v.Tab? || !FqdnKeysOk(v.entries) then None
    else
      var name := TextAt(v.entries, "name");
      var pattern := TextAt(v.entries, "pattern");
      var ports := PortsAt(v.entries);
      if name.Some? == pattern.Some? || ports.None? then None else Some(Fqdn(name, pattern, ports.value))
  }

  /** What the keys of a destination table say, read one by one. */
  datatype FqdnDraft = FqdnDraft(name: Option<string>, pattern: Option<string>, ports: Option<seq<nat>>)

  function FqdnDraftOf(entries: seq<Field>): FqdnDraft {
    FqdnDraft(TextAt(entries, "name"), TextAt(entries, "pattern"), PortsAt(entries))
  }

  function FqdnNoted(draft: FqdnDraft, f: Field): FqdnDraft
    requires FqdnKeyOk(f)
  {
    match f.key
    case "name" => draft.(name := Some(f.value.text))
    case "pattern" => draft.(pattern := Some(f.value.text))
    case _ => draft.(ports := PortList(f.value))
  }

  lemma NextFqdnDraft(entries: seq<Field>, i: nat)
    requires i < |entries| && FqdnKeyOk(entries[i])
    ensures FqdnDraftOf(entries[..i + 1]) == FqdnNoted(FqdnDraftOf(entries[..i]), entries[i])
  {
    NextLookup(entries, i, "name");
    NextLookup(entries, i, "pattern");
    NextLookup(entries, i, "ports");
  }

  method ReadFqdnKey(draft: FqdnDraft, f: Field) returns (r: Result<FqdnDraft>)
    ensures r.Ok? <==> FqdnKeyOk(f)
    ensures r.Ok? ==> r.value == FqdnNoted(draft, f)
    ensures r.Err? && r.error.UnknownKey? ==> r.error.key == f.key && f.key !in FQDN_KEYS
  {
    match f.key {
      case "name" =>
        if !f.value.Str? || !ValidDnsChars(f.value.text, false) { return Err(Rejected); }
        return Ok(draft.(name := Some(f.value.text)));
      case "pattern" =>
        if !f.value.Str? || !ValidDnsChars(f.value.text, true) { return Err(Rejected); }
        return Ok(draft.(pattern := Some(f.value.text)));
      case "ports" =>
        var list := ParsePorts(f.value);
        if list.Err? { return Err(list.error); }
        return Ok(draft.(ports := Some(list.value)));
      case _ => return Err(UnknownKey(f.key));
    }
  }

  method ParseFqdn(v: Value) returns (r: Result<Fqdn>)
    ensures Outcome(r) == FqdnOf(v)
    ensures r.Err? && r.error.UnknownKey? ==> HasStrangeKey(v, FQDN_KEYS, r.error.key)
  {
    if !v.Tab? { return Err(Rejected); }
    var draft := FqdnDraft(None, None, None);
    for i := 0 to |v.entries|
      invariant FqdnKeysOk(v.entries[..i])
      invariant draft == FqdnDraftOf(v.entries[..i])
    {
      var next := ReadFqdnKey(draft, v.entries[i]);
      if next.Err? { return Err(next.error); }
      NextFqdnDraft(v.entries, i);
      draft := next.value;
    }
    assert v.entries[..|v.entries|] == v.entries;
    if draft.name.Some? == draft.pattern.Some? || draft.ports.None? { return Err(Rejected); }
    return Ok(Fqdn(draft.name, draft.pattern, draft.ports.value));
  }

  predicate AreCidrs(items: seq<Value>, isRange: RangeCheck) {
    forall i | 0 <= i < |items| :: items[i].Str? && isRange(items[i].text)
  }

  function Texts(items: seq<Value>): seq<string>
    requires forall i | 0 <= i < |items| :: items[i].Str?
  {
    seq(|items|, i requires 0 <= i < |items| => items[i].text)
  }

  function ExceptOf(v: Value, isRange: RangeCheck): Option<seq<string>> {
    match Elements(v)
    case None => None
    case Some(items) => if AreCidrs(items, isRange) then Some(Texts(items)) else None
  }

  predicate CidrKeyOk(f: Field, isRange: RangeCheck) {
    match f.key
    case "cidr" => f.value.Str? && isRange(f.value.text)
    case "except" => ExceptOf(f.value, isRange).Some?
    case "ports" => PortList(f.value).Some?
    case _ => false
  }

  predicate CidrKeysOk(entries: seq<Field>, isRange: RangeCheck) {
    forall i | 0 <= i < |entries| :: CidrKeyOk(entries[i], isRange)
  }

  function ExceptAt(entries: seq<Field>, isRange: RangeCheck): seq<string> {
    match Lookup(entries, "except") case Some(v) => ExceptOf(v, isRange).GetOr([]) case None => []
  }

  /** The address range a table describes: known keys, a range and ports. */
  function CidrOf(v: Value, isRange: RangeCheck): Option<Cidr> {
    if !v.Tab? || !CidrKeysOk(v.entries, isRange) then None
    else
      match (TextAt(v.entries, "cidr"), PortsAt(v.entries))
      case (Some(cidr), Some(ports)) => Some(Cidr(cidr, ExceptAt(v.entries, isRange), ports))
      case _ => None
  }

  method ParseExcept(items: seq<Value>, isRange: RangeCheck) returns (r: Result<seq<string>>)
    ensures r.Ok? <==> AreCidrs(items, isRange)
    ensures r.Ok? ==> r.value == Texts(items)
    ensures r.Err? ==> r.error == Rejected
  {
    var texts: seq<string> := [];
    for i := 0 to |items|
      invariant |texts| == i
      invariant forall j | 0 <= j < i :: items[j].Str? && isRange(items[j].text) && texts[j] == items[j].text
    {
      if !items[i].Str? || !isRange(items[i].text) { return Err(Rejected); }
      texts := texts + [items[i].text];
    }
    assert texts == Texts(items);
    return Ok(texts);
  }

  /** What the keys of an address-range table say, read one by one. */
  datatype CidrDraft = CidrDraft(cidr: Option<string>, except: seq<string>, ports: Option<seq<nat>>)

  function CidrDraftOf(entries: seq<Field>, isRange: RangeCheck): CidrDraft {
    CidrDraft(TextAt(entries, "cidr"), ExceptAt(entries, isRange), PortsAt(entries))
  }

  function CidrNoted(draft: CidrDraft, f: Field, isRange: RangeCheck): CidrDraft
    requires CidrKeyOk(f, isRange)
  {
    match f.key
    case "cidr" => draft.(cidr := Some(f.value.text))
    case "except" => draft.(except := ExceptOf(f.value, isRange).value)
    case _ => draft.(ports := PortList(f.value))
  }

  lemma NextCidrDraft(entries: seq<Field>, i: nat, isRange: RangeCheck)
    requires i < |entries| && CidrKeyOk(entries[i], isRange)
    ensures CidrDraftOf(entries[..i + 1], isRange) == CidrNoted(CidrDraftOf(entries[..i], isRange), entries[i], isRange)
  {
    NextLookup(entries, i, "cidr");
    NextLookup(entries, i, "except");
    NextLookup(entries, i, "ports");
  }

  method ReadCidrKey(draft: CidrDraft, f: Field, isRange: RangeCheck) returns (r: Result<CidrDraft>)
    ensures r.Ok? <==> CidrKeyOk(f, isRange)
    ensures r.Ok? ==> r.value == CidrNoted(draft, f, isRange)
    ensures r.Err? && r.error.UnknownKey? ==> r.error.key == f.key && f.key !in CIDR_KEYS
  {
    match f.key {
      case "cidr" =>
        if !f.value.Str? || !isRange(f.value.text) { return Err(Rejected); }
        return Ok(draft.(cidr := Some(f.value.text)));
      case "except" =>
        var elements := Elements(f.value);
        if elements.None? { return Err(Rejected); }
        var texts := ParseExcept(elements.value, isRange);
        if texts.Err? { return Err(texts.error); }
        return Ok(draft.(except := texts.value));
      case "ports" =>
        var list := ParsePorts(f.value);
        if list.Err? { return Err(list.error); }
        return Ok(draft.(ports := Some(list.value)));
      case _ => return Err(UnknownKey(f.key));
    }
  }

  method ParseCidr(v: Value, isRange: RangeCheck) returns (r: Result<Cidr>)
    ensures Outcome(r) == CidrOf(v, isRange)
    ensures r.Err? && r.error.UnknownKey? ==> HasStrangeKey(v, CIDR_KEYS, r.error.key)
  {
    if !v.Tab? { return Err(Rejected); }
    var draft := CidrDraft(None, [], None);
    for i := 0 to |v.entries|
      invariant CidrKeysOk(v.entries[..i], isRange)
      invariant draft == CidrDraftOf(v.entries[..i], isRange)
    {
      var next := ReadCidrKey(draft, v.entries[i], isRange);
      if next.Err? { return Err(next.error); }
      NextCidrDraft(v.entries, i, isRange);
      draft := next.value;
    }
    assert v.entries[..|v.entries|] == v.entries;
    if draft.cidr.None? || draft.ports.None? { return Err(Rejected); }
    return Ok(Cidr(draft.cidr.value, draft.except, draft.ports.value));
  }

  // ---------- lists ----------

  function FqdnsOf(items: seq<Value>): Option<seq<Fqdn>> {
    if forall i | 0 <= i < |items| :: FqdnOf(items[i]).Some?
    then Some(seq(|items|, i requires 0 <= i < |items| && FqdnOf(items[i]).Some? => FqdnOf(items[i]).value))
    else None
  }

  function CidrsOf(items: seq<Value>, isRange: RangeCheck): Option<seq<Cidr>> {
    if forall i | 0 <= i < |items| :: CidrOf(items[i], isRange).Some?
    then
      Some(seq(|items|, i requires 0 <= i < |items| && CidrOf(items[i], isRange).Some? =>
                          CidrOf(items[i], isRange).value))
    else None
  }

  predicate ItemHasStrangeKey(items: seq<Value>, keys: seq<string>, key: string) {
    exists i | 0 <= i < |items| :: HasStrangeKey(items[i], keys, key)
  }

  method ParseFqdnItems(items: seq<Value>) returns (r: Result<seq<Fqdn>>)
    ensures Outcome(r) == FqdnsOf(items)
    ensures r.Err? && r.error.UnknownKey? ==> ItemHasStrangeKey(items, FQDN_KEYS, r.error.key)
  {
    var list: seq<Fqdn> := [];
    for i := 0 to |items|
      invariant |list| == i
      invariant forall j | 0 <= j < i :: FqdnOf(items[j]) == Some(list[j])
    {
      var one := ParseFqdn(items[i]);
      if one.Err? { return Err(one.error); }
      list := list + [one.value];
    }
    assert FqdnsOf(items).Some? && list == FqdnsOf(items).value;
    return Ok(list);
  }

  method ParseCidrItems(items: seq<Value>, isRange: RangeCheck) returns (r: Result<seq<Cidr>>)
    ensures Outcome(r) == CidrsOf(items, isRange)
    ensures r.Err? && r.error.UnknownKey? ==> ItemHasStrangeKey(items, CIDR_KEYS, r.error.key)
  {
    var list: seq<Cidr> := [];
    for i := 0 to |items|
      invariant |list| == i
      invariant forall j | 0 <= j < i :: CidrOf(items[j], isRange) == Some(list[j])
    {
      var one := ParseCidr(items[i], isRange);
      if one.Err? { return Err(one.error); }
      list := list + [one.value];
    }
    assert CidrsOf(items, isRange).Some? && list == CidrsOf(items, isRange).value;
    return Ok(list);
  }

  function FqdnList(v: Value): Option<seq<Fqdn>> {
    match Elements(v) case None => None case Some(items) => FqdnsOf(items)
  }

  function CidrList(v: Value, isRange: RangeCheck): Option<seq<Cidr>> {
    match Elements(v) case None => None case Some(items) => CidrsOf(items, isRange)
  }

  predicate ListHasStrangeKey(v: Value, keys: seq<string>, key: string) {
    Elements(v).Some? && ItemHasStrangeKey(Elements(v).value, keys, key)
  }

  method ParseFqdns(v: Value) returns (r: Result<seq<Fqdn>>)
    ensures Outcome(r) == FqdnList(v)
    ensures r.Err? && r.error.UnknownKey? ==> ListHasStrangeKey(v, FQDN_KEYS, r.error.key)
  {
    var elements := Elements(v);
    if elements.None? { return Err(Rejected); }
    r := ParseFqdnItems(elements.value);
  }

  method ParseCidrs(v: Value, isRange: RangeCheck) returns (r: Result<seq<Cidr>>)
    ensures Outcome(r) == CidrList(v, isRange)
    ensures r.Err? && r.error.UnknownKey? ==> ListHasStrangeKey(v, CIDR_KEYS, r.error.key)
  {
    var elements := Elements(v);
    if elements.None? { return Err(Rejected); }
    r := ParseCidrItems(elements.value, isRange);
  }

  // ---------- the section ----------

  predicate EgressKeyOk(f: Field, allowOverlays: bool, isRange: RangeCheck) {
    match f.key
    case "fqdns" => FqdnList(f.value).Some?
    case "cidrs" => CidrList(f.value, isRange).Some?
    case "kube_apiserver" => f.value.Bool?
    case _ => allowOverlays && f.value.Tab?
  }

  predicate EgressTableOk(entries: seq<Field>, allowOverlays: bool, isRange: RangeCheck) {
    forall i | 0 <= i < |entries| :: EgressKeyOk(entries[i], allowOverlays, isRange)
  }

  predicate OverlaysOk(raw: seq<Field>, isRange: RangeCheck) {
    forall i | 0 <= i < |raw| :: OverlayOk(raw[i], isRange)
  }

  /** Good in every environment: the base keys and every overlay. */
  predicate EgressOk(raw: seq<Field>, isRange: RangeCheck) {
    EgressTableOk(raw, true, isRange) && OverlaysOk(raw, isRange)
  }

  function FqdnsAt(entries: seq<Field>, otherwise: seq<Fqdn>): seq<Fqdn> {
    match Lookup(entries, "fqdns") case Some(v) => FqdnList(v).GetOr(otherwise) case None => otherwise
  }

  function CidrsAt(entries: seq<Field>, isRange: RangeCheck, otherwise: seq<Cidr>): seq<Cidr> {
    match Lookup(entries, "cidrs") case Some(v) => CidrList(v, isRange).GetOr(otherwise) case None => otherwise
  }

  function ApiserverAt(entries: seq<Field>, otherwise: bool): bool {
    match Lookup(entries, "kube_apiserver") case Some(Bool(b)) => b case _ => otherwise
  }

  /** The spec with the keys a table sets put in place of what it had. */
  function Overridden(spec: EgressSpec, entries: seq<Field>, isRange: RangeCheck): EgressSpec {
    EgressSpec(FqdnsAt(entries, spec.fqdns), CidrsAt(entries, isRange, spec.cidrs),
               ApiserverAt(entries, spec.kubeApiserver))
  }

  predicate KeyIsStrange(f: Field, allowOverlays: bool, key: string) {
    || (f.key !in EGRESS_KEYS && !(allowOverlays && f.value.Tab?) && key == f.key)
    || (f.key == "fqdns" && ListHasStrangeKey(f.value, FQDN_KEYS, key))
    || (f.key == "cidrs" && ListHasStrangeKey(f.value, CIDR_KEYS, key))
  }

  predicate TableHasStrangeKey(entries: seq<Field>, allowOverlays: bool, key: string) {
    exists i | 0 <= i < |entries| :: KeyIsStrange(entries[i], allowOverlays, key)
  }

  method ApplyEgressKey(f: Field, spec: EgressSpec, allowOverlays: bool, isRange: RangeCheck)
    returns (r: Result<EgressSpec>)
    ensures r.Ok? <==> EgressKeyOk(f, allowOverlays, isRange)
    ensures r.Ok? ==> r.value == Overridden(spec, [f], isRange)
    ensures r.Err? && r.error.UnknownKey? ==> KeyIsStrange(f, allowOverlays, r.error.key)
  {
    match f.key {
      case "fqdns" =>
        var list := ParseFqdns(f.value);
        if list.Err? { return Err(list.error); }
        return Ok(spec.(fqdns := list.value));
      case "cidrs" =>
        var list := ParseCidrs(f.value, isRange);
        if list.Err? { return Err(list.error); }
        return Ok(spec.(cidrs := list.value));
      case "kube_apiserver" =>
        if !f.value.Bool? { return Err(Rejected); }
        return Ok(spec.(kubeApiserver := f.value.flag));
      case _ =>
        if allowOverlays && f.value.Tab? { return Ok(spec); }
        return Err(UnknownKey(f.key));
    }
  }

  lemma NextOverridden(spec: EgressSpec, entries: seq<Field>, i: nat, allowOverlays: bool, isRange: RangeCheck)
    requires i < |entries| && EgressKeyOk(entries[i], allowOverlays, isRange)
    ensures Overridden(spec, entries[..i + 1], isRange)
         == Overridden(Overridden(spec, entries[..i], isRange), [entries[i]], isRange)
  {
    NextLookup(entries, i, "fqdns");
    NextLookup(entries, i, "cidrs");
    NextLookup(entries, i, "kube_apiserver");
  }

  method ApplyEgressTable(entries: seq<Field>, start: EgressSpec, allowOverlays: bool, isRange: RangeCheck)
    returns (r: Result<EgressSpec>)
    ensures r.Ok? <==> EgressTableOk(entries, allowOverlays, isRange)
    ensures r.Ok? ==> r.value == Overridden(start, entries, isRange)
    ensures r.Err? && r.error.UnknownKey? ==> TableHasStrangeKey(entries, allowOverlays, r.error.key)
  {
    var spec := start;
    for i := 0 to |entries|
      invariant EgressTableOk(entries[..i], allowOverlays, isRange)
      invariant spec == Overridden(start, entries[..i], isRange)
    {
      var next := ApplyEgressKey(entries[i], spec, allowOverlays, isRange);
      if next.Err? { return Err(next.error); }
      NextOverridden(start, entries, i, allowOverlays, isRange);
      spec := next.value;
    }
    assert entries[..|entries|] == entries;
    return Ok(spec);
  }

  predicate EgressHasStrangeKey(raw: seq<Field>, key: string) {
    || TableHasStrangeKey(raw, true, key)
    || exists i | 0 <= i < |raw| :: OverlayHasStrangeKey(raw[i], key)
  }

  predicate OverlayHasStrangeKey(f: Field, key: string) {
    f.key !in EGRESS_KEYS && f.value.Tab? && TableHasStrangeKey(f.value.entries, false, key)
  }

  /** Once the base keys are good, every table left is an overlay. */
  lemma TablesAreOverlays(raw: seq<Field>, isRange: RangeCheck)
    requires EgressTableOk(raw, true, isRange)
    ensures forall i | 0 <= i < |raw| :: raw[i].value.Tab? ==> raw[i].key !in EGRESS_KEYS
  {
    forall i | 0 <= i < |raw| && raw[i].value.Tab? ensures raw[i].key !in EGRESS_KEYS {
      assert EgressKeyOk(raw[i], true, isRange);
    }
  }

  predicate OverlayOk(f: Field, isRange: RangeCheck) {
    f.value.Tab? ==> EgressTableOk(f.value.entries, false, isRange)
  }

  /** The spec after one entry of the section: an overlay counts only if it is the selected one. */
  function AfterEntry(spec: EgressSpec, f: Field, env: string, isRange: RangeCheck): EgressSpec {
    if f.value.Tab? && f.key == env then Overridden(spec, f.value.entries, isRange) else spec
  }

  method ApplyOverlay(f: Field, env: string, spec: EgressSpec, isRange: RangeCheck) returns (r: Result<EgressSpec>)
    requires f.value.Tab? ==> f.key !in EGRESS_KEYS
    ensures r.Ok? <==> OverlayOk(f, isRange)
    ensures r.Ok? ==> r.value == AfterEntry(spec, f, env, isRange)
    ensures r.Err? && r.error.UnknownKey? ==> OverlayHasStrangeKey(f, r.error.key)
  {
    if !f.value.Tab? { return Ok(spec); }
    var target := if f.key == env then spec else NOTHING;
    r := ApplyEgressTable(f.value.entries, target, false, isRange);
    if r.Ok? && f.key != env { r := Ok(spec); }
  }

  /** The spec after all entries of the section, or None when an overlay is bad. */
  function AfterEntries(base: EgressSpec, raw: seq<Field>, env: string, isRange: RangeCheck): Option<EgressSpec> {
    if raw == [] then Some(base)
    else
      match AfterEntries(base, raw[..|raw| - 1], env, isRange)
      case None => None
      case Some(spec) =>
        if OverlayOk(raw[|raw| - 1], isRange) then Some(AfterEntry(spec, raw[|raw| - 1], env, isRange)) else None
  }

  lemma NextAfter(base: EgressSpec, raw: seq<Field>, i: nat, env: string, isRange: RangeCheck)
    requires i < |raw|
    ensures AfterEntries(base, raw[..i + 1], env, isRange)
         == match AfterEntries(base, raw[..i], env, isRange)
            case None => None
            case Some(spec) => if OverlayOk(raw[i], isRange) then Some(AfterEntry(spec, raw[i], env, isRange)) else None
  {
    assert raw[..i + 1][..i] == raw[..i];
  }

  /** A bad overlay spoils every longer section. */
  lemma {:induction false} StaysBad(base: EgressSpec, raw: seq<Field>, n: nat, env: string, isRange: RangeCheck)
    requires n <= |raw| && AfterEntries(base, raw[..n], env, isRange).None?
    ensures AfterEntries(base, raw, env, isRange).None?
  {
    if n < |raw| {
      assert raw[..|raw| - 1][..n] == raw[..n];
      StaysBad(base, raw[..|raw| - 1], n, env, isRange);
    } else {
      assert raw[..n] == raw;
    }
  }

  /** Going through the entries applies the selected overlay once and checks them all. */
  lemma {:induction false} AfterEntriesIs(base: EgressSpec, raw: seq<Field>, env: string, isRange: RangeCheck)
    requires UniqueKeys(raw)
    ensures AfterEntries(base, raw, env, isRange).Some? <==> OverlaysOk(raw, isRange)
    ensures OverlaysOk(raw, isRange) ==>
              AfterEntries(base, raw, env, isRange) == Some(Overridden(base, TableAt(raw, env), isRange))
  {
    if raw != [] {
      var front := raw[..|raw| - 1];
      AfterEntriesIs(base, front, env, isRange);
      NextSelected(raw, |raw| - 1, env);
      assert raw[..|raw| - 1 + 1] == raw;
      assert forall i | 0 <= i < |front| :: front[i] == raw[i];
    }
  }

  /** Checks every overlay and applies the selected one. */
  method ApplyOverlays(raw: seq<Field>, env: string, base: EgressSpec, isRange: RangeCheck)
    returns (r: Result<EgressSpec>)
    requires forall i | 0 <= i < |raw| :: raw[i].value.Tab? ==> raw[i].key !in EGRESS_KEYS
    ensures Outcome(r) == AfterEntries(base, raw, env, isRange)
    ensures r.Err? && r.error.UnknownKey? ==> exists i | 0 <= i < |raw| :: OverlayHasStrangeKey(raw[i], r.error.key)
  {
    var spec := base;
    for i := 0 to |raw|
      invariant AfterEntries(base, raw[..i], env, isRange) == Some(spec)
    {
      NextAfter(base, raw, i, env, isRange);
      var next := ApplyOverlay(raw[i], env, spec, isRange);
      if next.Err? {
        StaysBad(base, raw, i + 1, env, isRange);
        return Err(next.error);
      }
      spec := next.value;
    }
    assert raw[..|raw|] == raw;
    return Ok(spec);
  }

  /** Resolves [egress]; whether it succeeds does not depend on the environment. */
  method ResolveEgress(raw: seq<Field>, env: string, isRange: RangeCheck) returns (r: Result<EgressSpec>)
    requires UniqueKeys(raw)
    ensures r.Ok? <==> EgressOk(raw, isRange)
    ensures r.Ok? ==> r.value == Overridden(Overridden(NOTHING, raw, isRange), TableAt(raw, env), isRange)
    ensures r.Err? && r.error.UnknownKey? ==> EgressHasStrangeKey(raw, r.error.key)
  {
    r := ApplyEgressTable(raw, NOTHING, true, isRange);
    if r.Ok? {
      TablesAreOverlays(raw, isRange);
      AfterEntriesIs(r.value, raw, env, isRange);
      r := ApplyOverlays(raw, env, r.value, isRange);
    }
  }

  // ---------- what resolution means ----------

  /** The value a key takes in an environment: the overlay's if it sets the key, else the base's. */
  function Chosen(raw: seq<Field>, env: string, key: string): Option<Value> {
    var overlaid := Lookup(TableAt(raw, env), key);
    if overlaid.Some? then overlaid else Lookup(raw, key)
  }

  /** Each key of the resolved section comes whole from the overlay or else from the base, never mixed. */
  lemma EachKeyFromOneTable(raw: seq<Field>, env: string, isRange: RangeCheck, spec: EgressSpec)
    requires EgressOk(raw, isRange)
    requires spec == Overridden(Overridden(NOTHING, raw, isRange), TableAt(raw, env), isRange)
    ensures Chosen(raw, env, "fqdns").None? ==> spec.fqdns == []
    ensures Chosen(raw, env, "fqdns").Some? ==> FqdnList(Chosen(raw, env, "fqdns").value) == Some(spec.fqdns)
    ensures Chosen(raw, env, "cidrs").None? ==> spec.cidrs == []
    ensures Chosen(raw, env, "cidrs").Some? ==>
              CidrList(Chosen(raw, env, "cidrs").value, isRange) == Some(spec.cidrs)
    ensures spec.kubeApiserver <==> Chosen(raw, env, "kube_apiserver") == Some(Bool(true))
  {
    var overlay := TableAt(raw, env);
    forall key | key in EGRESS_KEYS
      ensures Lookup(overlay, key).Some? ==> EgressKeyOk(Field(key, Lookup(overlay, key).value), false, isRange)
      ensures Lookup(raw, key).Some? ==> EgressKeyOk(Field(key, Lookup(raw, key).value), true, isRange)
    {}
    assert "fqdns" in EGRESS_KEYS && "cidrs" in EGRESS_KEYS && "kube_apiserver" in EGRESS_KEYS;
  }

  lemma CidrInRange(v: Value, isRange: RangeCheck, cidr: Cidr)
    requires CidrOf(v, isRange) == Some(cidr)
    ensures isRange(cidr.cidr) && forall text | text in cidr.except :: isRange(text)
  {
    var entries := v.entries;
    forall key | Lookup(entries, key).Some? ensures CidrKeyOk(Field(key, Lookup(entries, key).value), isRange) {}
    assert Lookup(entries, "cidr").Some?;
    if Lookup(entries, "except").Some? {
      var items := Elements(Lookup(entries, "except").value).value;
      assert AreCidrs(items, isRange) && cidr.except == Texts(items);
    }
  }

  /** Every destination of a resolved section, and every exception to it, is an address range. */
  lemma ResolvedInRange(raw: seq<Field>, env: string, addresses: Addresses, spec: EgressSpec, cidr: Cidr)
    requires EgressOk(raw, InRange(addresses)) && cidr in spec.cidrs
    requires spec == Overridden(Overridden(NOTHING, raw, InRange(addresses)), TableAt(raw, env), InRange(addresses))
    ensures IsRange(cidr.cidr, addresses) && forall text | text in cidr.except :: IsRange(text, addresses)
  {
    EachKeyFromOneTable(raw, env, InRange(addresses), spec);
    var items := Elements(Chosen(raw, env, "cidrs").value).value;
    var i :| 0 <= i < |spec.cidrs| && spec.cidrs[i] == cidr;
    CidrInRange(items[i], InRange(addresses), cidr);
    assert InRange(addresses)(cidr.cidr);
    forall text | text in cidr.except ensures IsRange(text, addresses) { assert InRange(addresses)(text); }
  }

  /** Two sections with the same base keys and the same overlay for env resolve alike there. */
  lemma OnlyBaseAndOwnOverlayCount(raw1: seq<Field>, raw2: seq<Field>, env: string, isRange: RangeCheck)
    requires forall key | key in EGRESS_KEYS :: Lookup(raw1, key) == Lookup(raw2, key)
    requires TableAt(raw1, env) == TableAt(raw2, env)
    ensures Overridden(Overridden(NOTHING, raw1, isRange), TableAt(raw1, env), isRange)
         == Overridden(Overridden(NOTHING, raw2, isRange), TableAt(raw2, env), isRange)
  {
    assert "fqdns" in EGRESS_KEYS && "cidrs" in EGRESS_KEYS && "kube_apiserver" in EGRESS_KEYS;
  }
}
