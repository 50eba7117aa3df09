/** What the destinations listed in [egress] mean, read off their keys alone. */
module EgressEntries {
  import opened Options
  import opened Sections
  import opened Toml
  import E = Egress

  /** A DNS name, with stars if it is a pattern. */
  predicate DnsText(v: Value, stars: bool) {
    && v.Str? && v.text != []
    && forall i | 0 <= i < |v.text| ::
         var c := v.text[i];
         'a' <= c <= 'z' || 'A' <= c <= 'Z' || '0' <= c <= '9' || c in "-." || (stars && c == '*')
  }

  /** The texts are exactly those of the array. */
  ghost predicate NamesTexts(v: Value, texts: seq<string>, isRange: E.RangeCheck) {
    && Elements(v).Some? && |texts| == |Elements(v).value|
    && (forall i | 0 <= i < |texts| :: Elements(v).value[i] == Str(texts[i]) && isRange(texts[i]))
  }

  /** The value under a key is what the option holds, and good. */
  ghost predicate Holds(entries: seq<Field>, key: string, held: Option<string>) {
    match Lookup(entries, key)
    case Some(v) => v.Str? && held == Some(v.text)
    case None => held == None
  }

  /** A table with a DNS name under name or else a pattern under pattern, and ports, and no other key. */
  ghost predicate FqdnMeans(v: Value, fqdn: E.Fqdn) {
    && v.Tab? && (forall i | 0 <= i < |v.entries| :: v.entries[i].key in {"name", "pattern", "ports"})
    && Holds(v.entries, "name", fqdn.name) && (fqdn.name.Some? ==> DnsText(Str(fqdn.name.value), false))
    && Holds(v.entries, "pattern", fqdn.pattern) && (fqdn.pattern.Some? ==> DnsText(Str(fqdn.pattern.value), true))
    && (fqdn.name.Some? <==> fqdn.pattern.None?)
    && Lookup(v.entries, "ports").Some? && NamesPorts(Lookup(v.entries, "ports").value, fqdn.ports)
  }

  /** A table with a range under cidr, ports, maybe ranges to except, and no other key. */
  ghost predicate CidrMeans(v: Value, isRange: E.RangeCheck, cidr: E.Cidr) {
    && v.Tab? && (forall i | 0 <= i < |v.entries| :: v.entries[i].key in {"cidr", "except", "ports"})
    && Lookup(v.entries, "cidr") == Some(Str(cidr.cidr)) && isRange(cidr.cidr)
    && (match Lookup(v.entries, "except")
        case Some(list) => NamesTexts(list, cidr.except, isRange)
        case None => cidr.except == [])
    && Lookup(v.entries, "ports").Some? && NamesPorts(Lookup(v.entries, "ports").value, cidr.ports)
  }

  lemma DnsTextIs(v: Value, stars: bool)
    requires v.Str?
    ensures E.ValidDnsChars(v.text, stars) <==> DnsText(v, stars)
  {
  }

  lemma FqdnKeyIs(f: Field)
    ensures E.FqdnKeyOk(f) ==> f.key in {"name", "pattern", "ports"}
    ensures f.key == "name" ==> (E.FqdnKeyOk(f) <==> DnsText(f.value, false))
    ensures f.key == "pattern" ==> (E.FqdnKeyOk(f) <==> DnsText(f.value, true))
    ensures f.key == "ports" ==> (E.FqdnKeyOk(f) <==> PortList(f.value).Some?)
  {
    if f.value.Str? {
      DnsTextIs(f.value, false);
      DnsTextIs(f.value, true);
    }
  }

  lemma FoundFqdnKey(entries: seq<Field>, key: string)
    requires E.FqdnKeysOk(entries) && Lookup(entries, key).Some?
    ensures E.FqdnKeyOk(Field(key, Lookup(entries, key).value))
  {
  }

  lemma ParsedMeans(v: Value, fqdn: E.Fqdn)
    requires E.FqdnOf(v) == Some(fqdn)
    ensures FqdnMeans(v, fqdn)
  {
    forall i | 0 <= i < |v.entries| ensures v.entries[i].key in {"name", "pattern", "ports"} {
      FqdnKeyIs(v.entries[i]);
    }
    if Lookup(v.entries, "name").Some? {
      FoundFqdnKey(v.entries, "name");
      FqdnKeyIs(Field("name", Lookup(v.entries, "name").value));
    }
    if Lookup(v.entries, "pattern").Some? {
      FoundFqdnKey(v.entries, "pattern");
      FqdnKeyIs(Field("pattern", Lookup(v.entries, "pattern").value));
    }
    PortListNames(Lookup(v.entries, "ports").value, fqdn.ports);
  }

  lemma MeantParses(v: Value, fqdn: E.Fqdn)
    requires v.Tab? ==> UniqueKeys(v.entries)
    requires FqdnMeans(v, fqdn)
    ensures E.FqdnOf(v) == Some(fqdn)
  {
    PortListNames(Lookup(v.entries, "ports").value, fqdn.ports);
    forall i | 0 <= i < |v.entries| ensures E.FqdnKeyOk(v.entries[i]) {
      assert Lookup(v.entries, v.entries[i].key) == Some(v.entries[i].value);
      FqdnKeyIs(v.entries[i]);
    }
  }

  /** A table gives a destination exactly if it means it. */
  lemma FqdnExactly(v: Value, fqdn: E.Fqdn)
    requires v.Tab? ==> UniqueKeys(v.entries)
    ensures E.FqdnOf(v) == Some(fqdn) <==> FqdnMeans(v, fqdn)
  {
    if E.FqdnOf(v) == Some(fqdn) { ParsedMeans(v, fqdn); }
    if FqdnMeans(v, fqdn) { MeantParses(v, fqdn); }
  }

  lemma ExceptIs(v: Value, isRange: E.RangeCheck)
    ensures E.ExceptOf(v, isRange).Some? ==> NamesTexts(v, E.ExceptOf(v, isRange).value, isRange)
    ensures forall texts :: NamesTexts(v, texts, isRange) ==> E.ExceptOf(v, isRange) == Some(texts)
  {
    forall texts | NamesTexts(v, texts, isRange) ensures E.ExceptOf(v, isRange) == Some(texts) {
      assert E.AreCidrs(Elements(v).value, isRange);
      assert E.ExceptOf(v, isRange).value == texts;
    }
  }

  lemma FoundCidrKey(entries: seq<Field>, isRange: E.RangeCheck, key: string)
    requires E.CidrKeysOk(entries, isRange) && Lookup(entries, key).Some?
    ensures E.CidrKeyOk(Field(key, Lookup(entries, key).value), isRange)
  {
  }

  lemma ParsedCidrMeans(v: Value, isRange: E.RangeCheck, cidr: E.Cidr)
    requires E.CidrOf(v, isRange) == Some(cidr)
    ensures CidrMeans(v, isRange, cidr)
  {
    FoundCidrKey(v.entries, isRange, "cidr");
    if Lookup(v.entries, "except").Some? {
      FoundCidrKey(v.entries, isRange, "except");
      ExceptIs(Lookup(v.entries, "except").value, isRange);
    }
    PortListNames(Lookup(v.entries, "ports").value, cidr.ports);
  }

  lemma MeantCidrParses(v: Value, isRange: E.RangeCheck, cidr: E.Cidr)
    requires v.Tab? ==> UniqueKeys(v.entries)
    requires CidrMeans(v, isRange, cidr)
    ensures E.CidrOf(v, isRange) == Some(cidr)
  {
    PortListNames(Lookup(v.entries, "ports").value, cidr.ports);
    if Lookup(v.entries, "except").Some? { ExceptIs(Lookup(v.entries, "except").value, isRange); }
    forall i | 0 <= i < |v.entries| ensures E.CidrKeyOk(v.entries[i], isRange) {
      assert Lookup(v.entries, v.entries[i].key) == Some(v.entries[i].value);
    }
  }

  /** A table gives a range exactly if it means it. */
  lemma CidrExactly(v: Value, isRange: E.RangeCheck, cidr: E.Cidr)
    requires v.Tab? ==> UniqueKeys(v.entries)
    ensures E.CidrOf(v, isRange) == Some(cidr) <==> CidrMeans(v, isRange, cidr)
  {
    if E.CidrOf(v, isRange) == Some(cidr) { ParsedCidrMeans(v, isRange, cidr); }
    if CidrMeans(v, isRange, cidr) { MeantCidrParses(v, isRange, cidr); }
  }

  // ---------- the section ----------

  /** Both ways of writing a list of tables: inline, or one header each. */
  ghost predicate ListsTables(v: Value, items: seq<Value>) {
    v == Array(items)
    || (v.Rows? && |items| == |v.rows| && forall i | 0 <= i < |items| :: items[i] == Tab(v.rows[i].entries))
  }

  /** The destinations of a resolved section are those its chosen lists mean, one by one and in order. */
  lemma ResolvedEgressMeans(raw: seq<Field>, env: string, isRange: E.RangeCheck, spec: E.EgressSpec)
    requires E.EgressOk(raw, isRange)
    requires spec == E.Overridden(E.Overridden(E.NOTHING, raw, isRange), TableAt(raw, env), isRange)
    ensures forall items: seq<Value> |
              E.Chosen(raw, env, "fqdns").Some? && ListsTables(E.Chosen(raw, env, "fqdns").value, items) ::
              |spec.fqdns| == |items| && forall i | 0 <= i < |items| :: FqdnMeans(items[i], spec.fqdns[i])
    ensures forall items: seq<Value> |
              E.Chosen(raw, env, "cidrs").Some? && ListsTables(E.Chosen(raw, env, "cidrs").value, items) ::
              |spec.cidrs| == |items| && forall i | 0 <= i < |items| :: CidrMeans(items[i], isRange, spec.cidrs[i])
  {
    E.EachKeyFromOneTable(raw, env, isRange, spec);
    forall items: seq<Value> |
      E.Chosen(raw, env, "fqdns").Some? && ListsTables(E.Chosen(raw, env, "fqdns").value, items)
      ensures |spec.fqdns| == |items| && forall i | 0 <= i < |items| :: FqdnMeans(items[i], spec.fqdns[i]) {
      FqdnsMean(E.Chosen(raw, env, "fqdns").value, items, spec.fqdns);
    }
    forall items: seq<Value> |
      E.Chosen(raw, env, "cidrs").Some? && ListsTables(E.Chosen(raw, env, "cidrs").value, items)
      ensures |spec.cidrs| == |items| && forall i | 0 <= i < |items| :: CidrMeans(items[i], isRange, spec.cidrs[i]) {
      CidrsMean(E.Chosen(raw, env, "cidrs").value, items, isRange, spec.cidrs);
    }
  }

  lemma ElementsAre(v: Value, items: seq<Value>)
    requires ListsTables(v, items)
    ensures Elements(v) == Some(items)
  {
    assert Elements(v).value == items;
  }

  lemma FqdnsMean(v: Value, items: seq<Value>, fqdns: seq<E.Fqdn>)
    requires ListsTables(v, items) && E.FqdnList(v) == Some(fqdns)
    ensures |fqdns| == |items| && forall i | 0 <= i < |items| :: FqdnMeans(items[i], fqdns[i])
  {
    ElementsAre(v, items);
    forall i | 0 <= i < |items| ensures FqdnMeans(items[i], fqdns[i]) { ParsedMeans(items[i], fqdns[i]); }
  }

  lemma CidrsMean(v: Value, items: seq<Value>, isRange: E.RangeCheck, cidrs: seq<E.Cidr>)
    requires ListsTables(v, items) && E.CidrList(v, isRange) == Some(cidrs)
    ensures |cidrs| == |items| && forall i | 0 <= i < |items| :: CidrMeans(items[i], isRange, cidrs[i])
  {
    ElementsAre(v, items);
    forall i | 0 <= i < |items| ensures CidrMeans(items[i], isRange, cidrs[i]) {
      ParsedCidrMeans(items[i], isRange, cidrs[i]);
    }
  }
}
