/** What the section resolvers share: errors, lookups in parsed tables, port lists. */
module Sections {
  import opened Options
  import opened Toml

  /** An unknown key is told apart from every other way an entry is rejected. */
  datatype Error = UnknownKey(key: string) | Unresolved | Rejected

  datatype Result<+T> = Ok(value: T) | Err(error: Error)

  function Outcome<T>(r: Result<T>): Option<T> {
    match r case Ok(x) => Some(x) case Err(_) => None
  }

  /** The value under a key. */
  function Lookup(entries: seq<Field>, key: string): (r: Option<Value>)
    ensures r.None? <==> forall i | 0 <= i < |entries| :: entries[i].key != key
    ensures r.Some? ==> exists i | 0 <= i < |entries| :: entries[i] == Field(key, r.value)
  {
    if entries == [] then None
    else if entries[|entries| - 1].key == key then Some(entries[|entries| - 1].value)
    else Lookup(entries[..|entries| - 1], key)
  }

  lemma NextLookup(entries: seq<Field>, i: nat, key: string)
    requires i < |entries|
    ensures Lookup(entries[..i + 1], key)
         == if entries[i].key == key then Some(entries[i].value) else Lookup(entries[..i], key)
  {
    assert entries[..i + 1][..i] == entries[..i];
  }

  /** Both ways of writing an array of tables parse to an array. */
  function Elements(v: Value): Option<seq<Value>> {
    match v
    case Array(items) => Some(items)
    case Rows(rows) => Some(seq(|rows|, i requires 0 <= i < |rows| => Tab(rows[i].entries)))
    case _ => None
  }

  function Text(v: Value): Option<string> {
    match v case Str(s) => Some(s) case _ => None
  }

  function TextAt(entries: seq<Field>, key: string): Option<string> {
    match Lookup(entries, key) case Some(v) => Text(v) case None => None
  }

  /** The entries of the sub-table under a key; none when there is no such table. */
  function TableAt(entries: seq<Field>, key: string): seq<Field> {
    match Lookup(entries, key) case Some(Tab(inner)) => inner case _ => []
  }

  /** One more entry read: the table under a key is new, or the one read before. */
  lemma NextSelected(raw: seq<Field>, i: nat, env: string)
    requires UniqueKeys(raw) && i < |raw|
    ensures TableAt(raw[..i + 1], env)
         == if raw[i].key == env && raw[i].value.Tab? then raw[i].value.entries else TableAt(raw[..i], env)
    ensures raw[i].key == env ==> TableAt(raw[..i], env) == []
  {
    NextLookup(raw, i, env);
  }

  /** The tables of a section hold each key once. */
  ghost predicate NestedKeysUnique(raw: seq<Field>) {
    forall i | 0 <= i < |raw| :: raw[i].value.Tab? ==> UniqueKeys(raw[i].value.entries)
  }

  function At(m: map<string, string>, key: string): Option<string> {
    if key in m then Some(m[key]) else None
  }

  // ---------- ports ----------

  predicate IsPort(v: Value) {
    v.Int? && 1 <= v.number <= 65535
  }

  predicate IsPortList(items: seq<Value>) {
    && items != []
    && (forall i | 0 <= i < |items| :: IsPort(items[i]))
    && (forall i, j | 0 <= i < j < |items| :: items[i].number != items[j].number)
  }

  /** The ports a value lists; None unless it is a non-empty array of distinct ports. */
  function PortList(v: Value): Option<seq<nat>> {
    match Elements(v)
    case None => None
    case Some(items) =>
      if IsPortList(items) then Some(seq(|items|, i requires 0 <= i < |items| => items[i].number)) else None
  }

  /** The value is a non-empty array of exactly these ports, in order, none twice. */
  ghost predicate NamesPorts(v: Value, ports: seq<nat>) {
    && v.Array? && v.items != [] && |ports| == |v.items|
    && (forall i | 0 <= i < |ports| :: v.items[i] == Int(ports[i]) && 1 <= ports[i] <= 65535)
    && (forall i, j | 0 <= i < j < |ports| :: ports[i] != ports[j])
  }

  lemma PortListNames(v: Value, ports: seq<nat>)
    ensures PortList(v) == Some(ports) <==> NamesPorts(v, ports)
  {
    if NamesPorts(v, ports) {
      assert IsPortList(v.items);
      assert PortList(v).value == ports;
    } else if PortList(v) == Some(ports) {
      var items := Elements(v).value;
      assert IsPort(items[0]);
      forall i | 0 <= i < |ports| ensures items[i] == Int(ports[i]) { assert IsPort(items[i]); }
    }
  }

  method ParsePorts(v: Value) returns (r: Result<seq<nat>>)
    ensures Outcome(r) == PortList(v)
    ensures r.Err? ==> r.error == Rejected
  {
    var elements := Elements(v);
    if elements.None? || elements.value == [] { return Err(Rejected); }
    var items := elements.value;
    var ports: seq<nat> := [];
    for i := 0 to |items|
      invariant |ports| == i
      invariant forall j | 0 <= j < i :: IsPort(items[j]) && ports[j] == items[j].number
      invariant forall j, k | 0 <= j < k < i :: items[j].number != items[k].number
    {
      if !items[i].Int? || !(1 <= items[i].number <= 65535) { return Err(Rejected); }
      if items[i].number in ports { return Err(Rejected); }
      ports := ports + [items[i].number];
    }
    assert IsPortList(items);
    assert ports == seq(|items|, i requires 0 <= i < |items| => items[i].number);
    return Ok(ports);
  }
}
