/** Rendering an environment lock into an existing document, in place and minimally. */
module LockRender {
  import opened Options
  import opened LockDocument

  datatype ServiceLock = ServiceLock(version: string, image: string, gitSha: string)

  datatype EnvironmentLock = EnvironmentLock(schema: string, env: string, services: map<string, ServiceLock>)

  // ---------- edits ----------

  function IsStr(item: Option<Item>, text: string): bool {
    item.Some? && item.value.Str? && item.value.text == text
  }

  /** Sets a string key; an equal value keeps its formatting. */
  function SetStr(entries: seq<Entry>, key: string, text: string): seq<Entry> {
    if IsStr(Get(entries, key), text) then entries
    else Put(entries, Entry(key, DEFAULT_FMT, Str(text, DEFAULT_FMT)))
  }

  predicate IsStandard(item: Item) {
    item.Header? && !item.table.dotted
  }

  /** An inline table's pairs lose the whitespace around them when they become a table of their own. */
  function Cleared(pairs: seq<Entry>): (r: seq<Entry>)
    ensures |r| == |pairs|
    ensures forall i | 0 <= i < |pairs| ::
              r[i].key == pairs[i].key && r[i].item == (match pairs[i].item
                                                        case Str(text, fmt) => Str(text, fmt.(decor := ""))
                                                        case other => other)
  {
    seq(|pairs|, i requires 0 <= i < |pairs| =>
      Entry(pairs[i].key, pairs[i].keyFmt.(decor := ""),
            match pairs[i].item
            case Str(text, fmt) => Str(text, fmt.(decor := ""))
            case other => other))
  }

  /** The table an item stands for once it is written under a header. */
  function AsTable(item: Item, implicit: bool): Table {
    match item
    case Header(table) => if table.dotted then table.(dotted := false, implicit := implicit) else table
    case Inline(pairs) => EMPTY_TABLE.(implicit := implicit, entries := Cleared(pairs))
    case _ => EMPTY_TABLE.(implicit := implicit)
  }

  /** The entry under key, normalised; its key is reformatted when the item had to change. */
  function Normalised(entries: seq<Entry>, key: string, implicit: bool): Entry {
    match Find(entries, key)
    case None => Entry(key, DEFAULT_FMT, Header(AsTable(Absent, implicit)))
    case Some(e) =>
      Entry(key, if IsStandard(e.item) then e.keyFmt else DEFAULT_FMT, Header(AsTable(e.item, implicit)))
  }

  function WithFields(table: Table, svc: ServiceLock): Table {
    table.(entries := SetStr(SetStr(SetStr(table.entries, "version", svc.version), "image", svc.image),
                             "git_sha", svc.gitSha))
  }

  /** What a locked service's entry becomes, before it gets its position. */
  function ServiceEntry(services: seq<Entry>, name: string, svc: ServiceLock): Entry {
    var e := Normalised(services, name, false);
    e.(item := Header(WithFields(e.item.table, svc)))
  }

  // ---------- positions ----------

  function PositionOf(item: Item): Option<nat> {
    if item.Header? then item.table.position else None
  }

  /** The smallest document position among the entries' tables. */
  ghost predicate IsMinPosition(entries: seq<Entry>, position: Option<nat>) {
    match position
    case None => forall e | e in entries :: PositionOf(e.item).None?
    case Some(m) =>
      && (exists e | e in entries :: PositionOf(e.item) == Some(m))
      && (forall e | e in entries && PositionOf(e.item).Some? :: m <= PositionOf(e.item).value)
  }

  function AtPosition(e: Entry, position: Option<nat>): Entry {
    if e.item.Header? then e.(item := Header(e.item.table.(position := position))) else e
  }

  function AllAt(entries: seq<Entry>, position: Option<nat>): (r: seq<Entry>)
    ensures |r| == |entries| && forall i | 0 <= i < |r| :: r[i] == AtPosition(entries[i], position)
  {
    seq(|entries|, i requires 0 <= i < |entries| => AtPosition(entries[i], position))
  }

  // ---------- what a rendering is ----------

  /** The services a document lists, as a table. */
  function ServicesOf(root: seq<Entry>): Entry {
    Normalised(root, "services", true)
  }

  /** Service entries before positions are set: exactly the locked services, sorted by name,
      each made from its entry in the old document. */
  ghost predicate ServicesMade(old_: seq<Entry>, lock: EnvironmentLock, made: seq<Entry>) {
    && Sorted(made)
    && (forall name {:trigger Find(made, name)} | name in lock.services ::
          Find(made, name) == Some(ServiceEntry(old_, name, lock.services[name])))
    && (forall e | e in made :: e.key in lock.services)
  }

  function WithHeaders(root: seq<Entry>, lock: EnvironmentLock): seq<Entry> {
    SetStr(SetStr(root, "schema", lock.schema), "env", lock.env)
  }

  function Finished(services: Table, made: seq<Entry>, position: Option<nat>): Table {
    services.(entries := AllAt(made, position), implicit := services.implicit && made != [])
  }

  ghost predicate IsRendering(root: seq<Entry>, lock: EnvironmentLock, rendered: seq<Entry>) {
    exists made, position :: RendersAs(root, lock, made, position, rendered)
  }

  /** The rendering whose service tables are made, all at one position. */
  ghost predicate RendersAs(root: seq<Entry>, lock: EnvironmentLock, made: seq<Entry>, position: Option<nat>,
                            rendered: seq<Entry>)
  {
    var headed := WithHeaders(root, lock);
    var services := ServicesOf(headed);
    && ServicesMade(services.item.table.entries, lock, made) && IsMinPosition(made, position)
    && rendered == Put(headed, services.(item := Header(Finished(services.item.table, made, position))))
  }

  lemma MinPositionUnique(entries: seq<Entry>, p: Option<nat>, q: Option<nat>)
    requires IsMinPosition(entries, p) && IsMinPosition(entries, q)
    ensures p == q
  {
  }

  lemma MadeUnique(old_: seq<Entry>, lock: EnvironmentLock, a: seq<Entry>, b: seq<Entry>)
    requires ServicesMade(old_, lock, a) && ServicesMade(old_, lock, b)
    ensures a == b
  {
    forall key ensures Find(a, key) == Find(b, key) {
      if key !in lock.services {
        if Find(a, key).Some? { FindGives(a, key); }
        if Find(b, key).Some? { FindGives(b, key); }
      }
    }
    SortedEqual(a, b);
  }

  /** Rendering is confluent: the specification leaves one result, whatever order services are visited in. */
  lemma RenderingUnique(root: seq<Entry>, lock: EnvironmentLock, a: seq<Entry>, b: seq<Entry>)
    requires IsRendering(root, lock, a) && IsRendering(root, lock, b)
    ensures a == b
  {
    var headed := WithHeaders(root, lock);
    var services := ServicesOf(headed);
    var old_ := services.item.table.entries;
    var made, p :| RendersAs(root, lock, made, p, a);
    var made', q :| RendersAs(root, lock, made', q, b);
    MadeUnique(old_, lock, made, made');
    MinPositionUnique(made, p, q);
  }

  // ---------- well-formed documents ----------

  /** Every table in the document has each key once. */
  ghost predicate Tidy(entries: seq<Entry>)
    decreases entries
  {
    Unique(entries) && forall i | 0 <= i < |entries| :: TidyItem(entries[i].item)
  }

  ghost predicate TidyItem(item: Item)
    decreases item
  {
    match item
    case Header(table) => Tidy(table.entries)
    case Inline(pairs) => Tidy(pairs)
    case _ => true
  }

  lemma PutTidy(entries: seq<Entry>, entry: Entry)
    requires Tidy(entries) && TidyItem(entry.item)
    ensures Tidy(Put(entries, entry))
  {
    PutFind(entries, entry, entry.key);
  }

  lemma SetStrTidy(entries: seq<Entry>, key: string, text: string)
    requires Tidy(entries)
    ensures Tidy(SetStr(entries, key, text))
  {
    PutTidy(entries, Entry(key, DEFAULT_FMT, Str(text, DEFAULT_FMT)));
  }

  lemma NormalisedTidy(entries: seq<Entry>, key: string, implicit: bool)
    requires Tidy(entries)
    ensures Tidy(Normalised(entries, key, implicit).item.table.entries)
  {
    if Find(entries, key).Some? {
      var i := IndexOf(entries, key).value;
      assert TidyItem(entries[i].item);
      if entries[i].item.Inline? {
        var pairs := entries[i].item.pairs;
        assert Tidy(pairs);
        assert Unique(Cleared(pairs));
        forall k | 0 <= k < |pairs| ensures TidyItem(Cleared(pairs)[k].item) { assert TidyItem(pairs[k].item); }
      }
    }
  }

  // ---------- the renderer ----------

  method StaleNames(entries: seq<Entry>, lock: EnvironmentLock) returns (stale: seq<string>)
    ensures forall name :: name in stale <==> name !in lock.services && Find(entries, name).Some?
  {
    stale := [];
    for i := 0 to |entries|
      invariant forall name ::
                  name in stale <==> name !in lock.services && exists k | 0 <= k < i :: entries[k].key == name
    {
      if entries[i].key !in lock.services { stale := stale + [entries[i].key]; }
    }
  }

  /** kept has lost exactly the entries named in gone. */
  ghost predicate Without(entries: seq<Entry>, gone: seq<string>, kept: seq<Entry>) {
    Unique(kept) && forall key :: Find(kept, key) == if key in gone then None else Find(entries, key)
  }

  lemma WithoutOneMore(entries: seq<Entry>, gone: seq<string>, kept: seq<Entry>, name: string)
    requires Without(entries, gone, kept)
    ensures Without(entries, gone + [name], Removed(kept, name))
  {
    forall key ensures Find(Removed(kept, name), key) == if key in gone + [name] then None else Find(entries, key) {
      RemovedFind(kept, name, key);
    }
    RemovedFind(kept, name, name);
  }

  method RemoveStale(entries: seq<Entry>, lock: EnvironmentLock) returns (kept: seq<Entry>)
    requires Unique(entries)
    ensures Unique(kept)
    ensures forall key :: Find(kept, key) == if key in lock.services then Find(entries, key) else None
  {
    var stale := StaleNames(entries, lock);
    kept := entries;
    for i := 0 to |stale|
      invariant Without(entries, stale[..i], kept)
    {
      WithoutOneMore(entries, stale[..i], kept, stale[i]);
      assert stale[..i + 1] == stale[..i] + [stale[i]];
      kept := Removed(kept, stale[i]);
    }
    assert stale[..|stale|] == stale;
  }

  /** The entry a key should have once the names in done are rendered. */
  ghost function Target(old_: seq<Entry>, lock: EnvironmentLock, done: seq<string>, key: string): Option<Entry> {
    if key !in lock.services then None
    else if key in done then Some(ServiceEntry(old_, key, lock.services[key]))
    else Find(old_, key)
  }

  ghost predicate UpdatedFor(old_: seq<Entry>, lock: EnvironmentLock, done: seq<string>, updated: seq<Entry>) {
    Unique(updated) && forall key :: Find(updated, key) == Target(old_, lock, done, key)
  }

  lemma UpdateOneMore(old_: seq<Entry>, lock: EnvironmentLock, done: seq<string>, updated: seq<Entry>, name: string)
    requires UpdatedFor(old_, lock, done, updated) && name in lock.services && name !in done
    ensures UpdatedFor(old_, lock, done + [name], Put(updated, ServiceEntry(updated, name, lock.services[name])))
  {
    var entry := ServiceEntry(updated, name, lock.services[name]);
    assert Find(updated, name) == Target(old_, lock, done, name);
    assert entry == ServiceEntry(old_, name, lock.services[name]);
    forall key ensures Find(Put(updated, entry), key) == Target(old_, lock, done + [name], key) {
      PutFind(updated, entry, key);
    }
    PutFind(updated, entry, name);
  }

  lemma NameIsNew(order: seq<string>, i: nat)
    requires i < |order| && forall j, k | 0 <= j < k < |order| :: order[j] != order[k]
    ensures order[i] !in order[..i] && order[..i + 1] == order[..i] + [order[i]]
  {
  }

  /** Updates or adds every locked service, in the order the lock's map is iterated. */
  method UpdateServices(entries: seq<Entry>, ghost old_: seq<Entry>, lock: EnvironmentLock, order: seq<string>)
    returns (updated: seq<Entry>)
    requires UpdatedFor(old_, lock, [], entries)
    requires forall name :: name in order <==> name in lock.services
    requires forall i, j | 0 <= i < j < |order| :: order[i] != order[j]
    ensures UpdatedFor(old_, lock, order, updated)
  {
    updated := entries;
    ghost var done := [];
    for i := 0 to |order|
      invariant done == order[..i]
      invariant UpdatedFor(old_, lock, done, updated)
    {
      NameIsNew(order, i);
      UpdateOneMore(old_, lock, done, updated, order[i]);
      updated := Put(updated, ServiceEntry(updated, order[i], lock.services[order[i]]));
      done := done + [order[i]];
    }
    assert order[..|order|] == order;
  }

  lemma SortedIsMade(old_: seq<Entry>, lock: EnvironmentLock, order: seq<string>, updated: seq<Entry>)
    requires UpdatedFor(old_, lock, order, updated)
    requires forall name :: name in order <==> name in lock.services
    ensures ServicesMade(old_, lock, SortByKey(updated))
  {
    var made := SortByKey(updated);
    SortKeeps(updated);
    SortedUnique(made);
    forall e | e in made ensures e.key in lock.services {
      var i :| 0 <= i < |made| && made[i] == e;
      FindAt(made, i);
      assert Find(updated, e.key) == Target(old_, lock, order, e.key);
    }
    forall name | name in lock.services
      ensures Find(made, name) == Some(ServiceEntry(old_, name, lock.services[name])) {
      assert Find(updated, name) == Target(old_, lock, order, name);
    }
  }

  method MinPosition(entries: seq<Entry>) returns (position: Option<nat>)
    ensures IsMinPosition(entries, position)
  {
    position := None;
    for i := 0 to |entries|
      invariant IsMinPosition(entries[..i], position)
    {
      var p := PositionOf(entries[i].item);
      if p.Some? && (position.None? || p.value < position.value) { position := p; }
      assert entries[..i + 1] == entries[..i] + [entries[i]];
      assert entries[i] in entries[..i + 1];
    }
    assert entries[..|entries|] == entries;
  }

  method RenderLock(existing: Option<seq<Entry>>, lock: EnvironmentLock, order: seq<string>)
    returns (rendered: seq<Entry>)
    requires existing.Some? ==> Tidy(existing.value)
    requires forall name :: name in order <==> name in lock.services
    requires forall i, j | 0 <= i < j < |order| :: order[i] != order[j]
    ensures IsRendering(if existing.Some? then existing.value else [], lock, rendered)
  {
    var root := match existing case Some(doc) => doc case None => [];
    ghost var start := root;
    SetStrTidy(root, "schema", lock.schema);
    root := SetStr(root, "schema", lock.schema);
    SetStrTidy(root, "env", lock.env);
    root := SetStr(root, "env", lock.env);
    NormalisedTidy(root, "services", true);
    var services := Normalised(root, "services", true);
    var table := services.item.table;
    var kept := RemoveStale(table.entries, lock);
    var updated := UpdateServices(kept, table.entries, lock, order);
    SortedIsMade(table.entries, lock, order, updated);
    var made := SortByKey(updated);
    var position := MinPosition(made);
    table := table.(entries := AllAt(made, position));
    if made == [] { table := table.(implicit := false); }
    rendered := Put(root, services.(item := Header(table)));
    assert table == Finished(services.item.table, made, position);
    assert RendersAs(start, lock, made, position, rendered);
  }
}
