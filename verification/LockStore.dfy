/** Reading locks back, and writing one only when the stored state differs. */
module LockStore {
  import opened Options
  import opened LockDocument
  import opened LockRender

  // ---------- decoding ----------

  function StrAt(entries: seq<Entry>, key: string): Option<string> {
    match Get(entries, key)
    case Some(Str(text, _)) => Some(text)
    case _ => None
  }

  /** The entries of a table in any layout. */
  function Pairs(item: Item): Option<seq<Entry>> {
    match item
    case Header(table) => Some(table.entries)
    case Inline(pairs) => Some(pairs)
    case _ => None
  }

  /** A service entry needs its three string fields; other keys are ignored. */
  function DecodeService(item: Item): Option<ServiceLock> {
    match Pairs(item)
    case None => None
    case Some(pairs) =>
      match (StrAt(pairs, "version"), StrAt(pairs, "image"), StrAt(pairs, "git_sha"))
      case (Some(version), Some(image), Some(gitSha)) => Some(ServiceLock(version, image, gitSha))
      case _ => None
  }

  function DecodeServices(entries: seq<Entry>): Option<map<string, ServiceLock>> {
    if entries == [] then Some(map[])
    else
      var last := entries[|entries| - 1];
      match (DecodeServices(entries[..|entries| - 1]), DecodeService(last.item))
      case (Some(services), Some(svc)) => Some(services[last.key := svc])
      case _ => None
  }

  function Decode(root: seq<Entry>): Option<EnvironmentLock> {
    var services :=
      match Get(root, "services")
      case None => Some(map[])
      case Some(item) =>
        match Pairs(item) case None => None case Some(pairs) => DecodeServices(pairs);
    match (StrAt(root, "schema"), StrAt(root, "env"), services)
    case (Some(schema), Some(env), Some(services)) => Some(EnvironmentLock(schema, env, services))
    case _ => None
  }

  // ---------- a rendered lock decodes to itself ----------

  lemma SetStrFind(entries: seq<Entry>, key: string, text: string, other: string)
    requires Unique(entries)
    ensures Unique(SetStr(entries, key, text))
    ensures IsStr(Get(SetStr(entries, key, text), key), text)
    ensures other != key ==> Find(SetStr(entries, key, text), other) == Find(entries, other)
  {
    PutFind(entries, Entry(key, DEFAULT_FMT, Str(text, DEFAULT_FMT)), key);
    PutFind(entries, Entry(key, DEFAULT_FMT, Str(text, DEFAULT_FMT)), other);
  }

  /** The table's fields are as locked. */
  ghost predicate Holds(entries: seq<Entry>, svc: ServiceLock) {
    && IsStr(Get(entries, "version"), svc.version)
    && IsStr(Get(entries, "image"), svc.image)
    && IsStr(Get(entries, "git_sha"), svc.gitSha)
  }

  lemma FieldsHold(table: Table, svc: ServiceLock)
    requires Unique(table.entries)
    ensures Unique(WithFields(table, svc).entries) && Holds(WithFields(table, svc).entries, svc)
  {
    var a := SetStr(table.entries, "version", svc.version);
    var b := SetStr(a, "image", svc.image);
    SetStrFind(table.entries, "version", svc.version, "");
    SetStrFind(a, "image", svc.image, "version");
    SetStrFind(b, "git_sha", svc.gitSha, "version");
    SetStrFind(b, "git_sha", svc.gitSha, "image");
  }

  /** A service's fields are already as locked. */
  ghost predicate Matches(item: Item, svc: ServiceLock) {
    IsStandard(item) && Holds(item.table.entries, svc)
  }

  lemma ServiceEntryMatches(services: seq<Entry>, name: string, svc: ServiceLock, position: Option<nat>)
    requires Tidy(services)
    ensures Matches(AtPosition(ServiceEntry(services, name, svc), position).item, svc)
  {
    NormalisedTidy(services, name, false);
    FieldsHold(Normalised(services, name, false).item.table, svc);
  }

  lemma IsStrAt(entries: seq<Entry>, key: string, text: string)
    requires IsStr(Get(entries, key), text)
    ensures StrAt(entries, key) == Some(text)
  {
  }

  lemma MatchingDecodes(item: Item, svc: ServiceLock)
    requires Matches(item, svc)
    ensures DecodeService(item) == Some(svc)
  {
    IsStrAt(item.table.entries, "version", svc.version);
    IsStrAt(item.table.entries, "image", svc.image);
    IsStrAt(item.table.entries, "git_sha", svc.gitSha);
  }

  ghost function KeySet(entries: seq<Entry>): set<string> {
    if entries == [] then {} else KeySet(entries[..|entries| - 1]) + {entries[|entries| - 1].key}
  }

  lemma {:induction false} InKeySet(entries: seq<Entry>, i: nat)
    requires i < |entries|
    ensures entries[i].key in KeySet(entries)
  {
    var n := |entries| - 1;
    if i < n { InKeySet(entries[..n], i); }
  }

  lemma {:induction false} DecodeAll(entries: seq<Entry>, services: map<string, ServiceLock>)
    returns (r: map<string, ServiceLock>)
    requires forall i | 0 <= i < |entries| ::
               entries[i].key in services && DecodeService(entries[i].item) == Some(services[entries[i].key])
    ensures DecodeServices(entries) == Some(r) && r.Keys == KeySet(entries)
    ensures forall k | k in r :: k in services && r[k] == services[k]
  {
    if entries == [] {
      r := map[];
    } else {
      var n := |entries| - 1;
      var r0 := DecodeAll(entries[..n], services);
      r := r0[entries[n].key := services[entries[n].key]];
    }
  }

  lemma PlacedDecodes(old_: seq<Entry>, lock: EnvironmentLock, made: seq<Entry>, position: Option<nat>, i: nat)
    requires Tidy(old_) && ServicesMade(old_, lock, made) && i < |made|
    ensures made[i].key in lock.services
    ensures DecodeService(AtPosition(made[i], position).item) == Some(lock.services[made[i].key])
  {
    MadeIsHeader(old_, lock, made, i);
    var svc := lock.services[made[i].key];
    ServiceEntryMatches(old_, made[i].key, svc, position);
    MatchingDecodes(AtPosition(made[i], position).item, svc);
  }

  lemma AllPlacedDecode(old_: seq<Entry>, lock: EnvironmentLock, made: seq<Entry>, position: Option<nat>)
    returns (r: map<string, ServiceLock>)
    requires Tidy(old_) && ServicesMade(old_, lock, made)
    ensures DecodeServices(AllAt(made, position)) == Some(r) && r.Keys == KeySet(AllAt(made, position))
    ensures forall k | k in r :: k in lock.services && r[k] == lock.services[k]
  {
    var placed := AllAt(made, position);
    forall i | 0 <= i < |placed|
      ensures placed[i].key in lock.services && DecodeService(placed[i].item) == Some(lock.services[placed[i].key]) {
      PlacedDecodes(old_, lock, made, position, i);
    }
    r := DecodeAll(placed, lock.services);
  }

  lemma NamePlaced(old_: seq<Entry>, lock: EnvironmentLock, made: seq<Entry>, position: Option<nat>, name: string)
    requires ServicesMade(old_, lock, made) && name in lock.services
    ensures name in KeySet(AllAt(made, position))
  {
    MadeHas(old_, lock, made, name);
    InKeySet(AllAt(made, position), IndexOf(made, name).value);
  }

  lemma MadeDecodes(old_: seq<Entry>, lock: EnvironmentLock, made: seq<Entry>, position: Option<nat>)
    requires Tidy(old_) && ServicesMade(old_, lock, made)
    ensures DecodeServices(AllAt(made, position)) == Some(lock.services)
  {
    var r := AllPlacedDecode(old_, lock, made, position);
    forall name | name in lock.services ensures name in r.Keys {
      NamePlaced(old_, lock, made, position, name);
    }
    SameMap(r, lock.services);
  }

  lemma SameMap(r: map<string, ServiceLock>, services: map<string, ServiceLock>)
    requires forall k | k in r :: k in services && r[k] == services[k]
    requires forall k | k in services :: k in r.Keys
    ensures r == services
  {
    assert r.Keys == services.Keys;
  }

  lemma MadeHas(old_: seq<Entry>, lock: EnvironmentLock, made: seq<Entry>, name: string)
    requires ServicesMade(old_, lock, made) && name in lock.services
    ensures Find(made, name) == Some(ServiceEntry(old_, name, lock.services[name])) && IndexOf(made, name).Some?
  {
  }

  /** The pieces a rendering is put together from, and where they can be found in it. */
  lemma RenderingParts(root: seq<Entry>, lock: EnvironmentLock, rendered: seq<Entry>)
    returns (services: Table, made: seq<Entry>, position: Option<nat>, entry: Entry)
    requires Tidy(root) && IsRendering(root, lock, rendered)
    ensures ServicesOf(WithHeaders(root, lock)).item == Header(services) && !services.dotted
    ensures Tidy(WithHeaders(root, lock)) && Tidy(services.entries)
    ensures ServicesMade(services.entries, lock, made) && IsMinPosition(made, position)
    ensures entry == Entry("services", ServicesOf(WithHeaders(root, lock)).keyFmt,
                           Header(Finished(services, made, position)))
    ensures rendered == Put(WithHeaders(root, lock), entry)
    ensures Find(rendered, "services") == Some(entry)
    ensures Find(rendered, "schema") == Find(WithHeaders(root, lock), "schema")
    ensures Find(rendered, "env") == Find(WithHeaders(root, lock), "env")
  {
    var headed := WithHeaders(root, lock);
    services := ServicesOf(headed).item.table;
    SetStrTidy(root, "schema", lock.schema);
    SetStrTidy(SetStr(root, "schema", lock.schema), "env", lock.env);
    NormalisedTidy(headed, "services", true);
    made, position :| RendersAs(root, lock, made, position, rendered);
    entry := ServicesOf(headed).(item := Header(Finished(services, made, position)));
    PutFind(headed, entry, "services");
    PutFind(headed, entry, "schema");
    PutFind(headed, entry, "env");
  }

  lemma HeadersFind(root: seq<Entry>, lock: EnvironmentLock, key: string)
    requires Unique(root)
    ensures IsStr(Get(WithHeaders(root, lock), "schema"), lock.schema)
    ensures IsStr(Get(WithHeaders(root, lock), "env"), lock.env)
    ensures key != "schema" && key != "env" ==> Find(WithHeaders(root, lock), key) == Find(root, key)
  {
    var a := SetStr(root, "schema", lock.schema);
    SetStrFind(root, "schema", lock.schema, key);
    SetStrFind(a, "env", lock.env, "schema");
    SetStrFind(a, "env", lock.env, key);
  }

  /** Whatever document was there before, decoding the rendered one gives back exactly the lock. */
  lemma RenderedDecodes(root: seq<Entry>, lock: EnvironmentLock, rendered: seq<Entry>)
    requires Tidy(root) && IsRendering(root, lock, rendered)
    ensures Decode(rendered) == Some(lock)
  {
    var services, made, position, entry := RenderingParts(root, lock, rendered);
    HeadersFind(root, lock, "services");
    MadeDecodes(services.entries, lock, made, position);
    DecodeParts(rendered, lock, entry.item.table.entries);
  }

  lemma DecodeParts(rendered: seq<Entry>, lock: EnvironmentLock, placed: seq<Entry>)
    requires IsStr(Get(rendered, "schema"), lock.schema) && IsStr(Get(rendered, "env"), lock.env)
    requires Find(rendered, "services").Some? && Pairs(Find(rendered, "services").value.item) == Some(placed)
    requires DecodeServices(placed) == Some(lock.services)
    ensures Decode(rendered) == Some(lock)
  {
  }

  // ---------- rendering is minimal ----------

  /** new_ differs from old_ only in entries under these keys; the others stay where they are. */
  ghost predicate OnlyChanges(old_: seq<Entry>, new_: seq<Entry>, keys: set<string>) {
    && |old_| <= |new_|
    && (forall i | 0 <= i < |old_| ::
          new_[i].key == old_[i].key && (old_[i].key !in keys ==> new_[i] == old_[i]))
    && (forall i | |old_| <= i < |new_| :: new_[i].key in keys)
  }

  lemma PutChanges(entries: seq<Entry>, entry: Entry)
    ensures OnlyChanges(entries, Put(entries, entry), {entry.key})
  {
  }

  lemma SetStrChanges(entries: seq<Entry>, key: string, text: string)
    ensures OnlyChanges(entries, SetStr(entries, key, text), {key})
  {
    PutChanges(entries, Entry(key, DEFAULT_FMT, Str(text, DEFAULT_FMT)));
  }

  /** Root keys other than schema, env and services stay where they are, byte for byte, and only
      those three can be new. */
  lemma OtherKeysUntouched(root: seq<Entry>, lock: EnvironmentLock, rendered: seq<Entry>)
    requires Tidy(root) && IsRendering(root, lock, rendered)
    ensures OnlyChanges(root, rendered, {"schema", "env", "services"})
  {
    var services, made, position, entry := RenderingParts(root, lock, rendered);
    var a := SetStr(root, "schema", lock.schema);
    var b := SetStr(a, "env", lock.env);
    SetStrChanges(root, "schema", lock.schema);
    SetStrChanges(a, "env", lock.env);
    PutChanges(b, entry);
    assert {"schema"} + {"env"} + {"services"} == {"schema", "env", "services"};
  }

  lemma MatchingEntryKept(services: seq<Entry>, name: string, svc: ServiceLock)
    requires Find(services, name).Some? && Matches(Find(services, name).value.item, svc)
    ensures Some(ServiceEntry(services, name, svc)) == Find(services, name)
  {
    FindGives(services, name);
  }

  lemma StandardServices(root: seq<Entry>, lock: EnvironmentLock, services: Entry)
    requires Unique(root) && Find(root, "services") == Some(services) && IsStandard(services.item)
    ensures ServicesOf(WithHeaders(root, lock)).item == services.item
  {
    HeadersFind(root, lock, "services");
  }

  /** A standard service table whose three fields already match keeps everything but its position. */
  lemma MatchingServiceVerbatim(root: seq<Entry>, lock: EnvironmentLock, rendered: seq<Entry>, name: string,
                                services: Entry, old_: Entry) returns (position: Option<nat>)
    requires Tidy(root) && IsRendering(root, lock, rendered) && name in lock.services
    requires Find(root, "services") == Some(services) && IsStandard(services.item)
    requires Find(services.item.table.entries, name) == Some(old_) && Matches(old_.item, lock.services[name])
    ensures Find(rendered, "services").Some? && Find(rendered, "services").value.item.Header?
    ensures Find(Find(rendered, "services").value.item.table.entries, name) == Some(AtPosition(old_, position))
  {
    var table, made, p, entry := RenderingParts(root, lock, rendered);
    position := p;
    StandardServices(root, lock, services);
    MadeKeepsMatching(table.entries, lock, made, p, name, old_);
  }

  lemma MadeKeepsMatching(services: seq<Entry>, lock: EnvironmentLock, made: seq<Entry>, position: Option<nat>,
                          name: string, old_: Entry)
    requires ServicesMade(services, lock, made) && name in lock.services
    requires Find(services, name) == Some(old_) && Matches(old_.item, lock.services[name])
    ensures Find(AllAt(made, position), name) == Some(AtPosition(old_, position))
  {
    MatchingEntryKept(services, name, lock.services[name]);
    MadeHas(services, lock, made, name);
    PlacedFind(made, position, name);
  }

  lemma PlacedFind(made: seq<Entry>, position: Option<nat>, name: string)
    requires Sorted(made)
    ensures Sorted(AllAt(made, position))
    ensures Find(AllAt(made, position), name)
            == match Find(made, name) case None => None case Some(e) => Some(AtPosition(e, position))
  {
    SortedUnique(made);
    SortedUnique(AllAt(made, position));
    if Find(made, name).Some? {
      FindAt(AllAt(made, position), IndexOf(made, name).value);
    }
  }

  /** The locked services, sorted by name, all at one position. */
  ghost predicate SortedServices(services: seq<Entry>, lock: EnvironmentLock) {
    && Sorted(services)
    && (forall name :: name in lock.services <==> Find(services, name).Some?)
    && (forall i, j | 0 <= i < |services| && 0 <= j < |services| ::
          PositionOf(services[i].item) == PositionOf(services[j].item))
  }

  /** The rendered services are the locked ones, sorted by name, all at one position. */
  lemma ServicesSorted(root: seq<Entry>, lock: EnvironmentLock, rendered: seq<Entry>)
    requires Tidy(root) && IsRendering(root, lock, rendered)
    ensures Find(rendered, "services").Some? && IsStandard(Find(rendered, "services").value.item)
    ensures SortedServices(Find(rendered, "services").value.item.table.entries, lock)
  {
    var services, made, position := ServicesIn(root, lock, rendered);
    PlacedServices(services.entries, lock, made, position);
  }

  lemma ServicesIn(root: seq<Entry>, lock: EnvironmentLock, rendered: seq<Entry>)
    returns (services: Table, made: seq<Entry>, position: Option<nat>)
    requires Tidy(root) && IsRendering(root, lock, rendered)
    ensures ServicesMade(services.entries, lock, made) && !services.dotted
    ensures Find(rendered, "services").Some?
    ensures Find(rendered, "services").value.item == Header(Finished(services, made, position))
  {
    var entry;
    services, made, position, entry := RenderingParts(root, lock, rendered);
  }

  lemma PlacedServices(old_: seq<Entry>, lock: EnvironmentLock, made: seq<Entry>, position: Option<nat>)
    requires ServicesMade(old_, lock, made)
    ensures SortedServices(AllAt(made, position), lock)
  {
    PlacedNames(old_, lock, made, position);
    forall e | e in AllAt(made, position) ensures PositionOf(e.item) == position {
      PlacedLocked(old_, lock, made, position, e);
    }
  }

  lemma PlacedNames(old_: seq<Entry>, lock: EnvironmentLock, made: seq<Entry>, position: Option<nat>)
    requires ServicesMade(old_, lock, made)
    ensures Sorted(AllAt(made, position))
    ensures forall name :: name in lock.services <==> Find(AllAt(made, position), name).Some?
  {
    PlacedFind(made, position, "");
    forall name ensures name in lock.services <==> Find(AllAt(made, position), name).Some? {
      PlacedFind(made, position, name);
      if name in lock.services { MadeHas(old_, lock, made, name); }
      if Find(made, name).Some? { FindGives(made, name); }
    }
  }

  lemma MadeIsHeader(old_: seq<Entry>, lock: EnvironmentLock, made: seq<Entry>, i: nat)
    requires ServicesMade(old_, lock, made) && i < |made|
    ensures made[i].key in lock.services && made[i] == ServiceEntry(old_, made[i].key, lock.services[made[i].key])
  {
    SortedUnique(made);
    FindAt(made, i);
    assert made[i] in made;
  }

  // ---------- rendering again changes nothing ----------

  lemma SetStrSame(entries: seq<Entry>, key: string, text: string)
    requires IsStr(Get(entries, key), text)
    ensures SetStr(entries, key, text) == entries
  {
  }

  lemma NameAgain(old_: seq<Entry>, lock: EnvironmentLock, made: seq<Entry>, position: Option<nat>, name: string)
    requires Tidy(old_) && ServicesMade(old_, lock, made) && name in lock.services
    ensures Find(AllAt(made, position), name)
            == Some(ServiceEntry(AllAt(made, position), name, lock.services[name]))
  {
    MadeHas(old_, lock, made, name);
    PlacedFind(made, position, name);
    ServiceEntryMatches(old_, name, lock.services[name], position);
    MatchingEntryKept(AllAt(made, position), name, lock.services[name]);
  }

  lemma PlacedLocked(old_: seq<Entry>, lock: EnvironmentLock, made: seq<Entry>, position: Option<nat>, e: Entry)
    requires ServicesMade(old_, lock, made) && e in AllAt(made, position)
    ensures e.key in lock.services && PositionOf(e.item) == position
  {
    var i :| 0 <= i < |AllAt(made, position)| && AllAt(made, position)[i] == e;
    MadeIsHeader(old_, lock, made, i);
  }

  lemma PlacedTwice(made: seq<Entry>, position: Option<nat>)
    ensures AllAt(AllAt(made, position), position) == AllAt(made, position)
  {
  }

  lemma MadeAgain(old_: seq<Entry>, lock: EnvironmentLock, made: seq<Entry>, position: Option<nat>)
    requires Tidy(old_) && ServicesMade(old_, lock, made)
    ensures ServicesMade(AllAt(made, position), lock, AllAt(made, position))
  {
    PlacedFind(made, position, "");
    forall name | name in lock.services
      ensures Find(AllAt(made, position), name)
              == Some(ServiceEntry(AllAt(made, position), name, lock.services[name])) {
      NameAgain(old_, lock, made, position, name);
    }
    forall e | e in AllAt(made, position) ensures e.key in lock.services {
      PlacedLocked(old_, lock, made, position, e);
    }
  }

  lemma PlacedPosition(old_: seq<Entry>, lock: EnvironmentLock, made: seq<Entry>, position: Option<nat>)
    requires ServicesMade(old_, lock, made) && IsMinPosition(made, position)
    ensures IsMinPosition(AllAt(made, position), position)
  {
    forall e | e in AllAt(made, position) ensures PositionOf(e.item) == position {
      PlacedLocked(old_, lock, made, position, e);
    }
    if position.Some? {
      assert |made| > 0;
      assert AllAt(made, position)[0] in AllAt(made, position);
    }
  }

  lemma SamePut(entries: seq<Entry>, entry: Entry)
    requires Find(entries, entry.key) == Some(entry)
    ensures Put(entries, entry) == entries
  {
  }

  lemma HeadersAgain(root: seq<Entry>, lock: EnvironmentLock, rendered: seq<Entry>)
    requires Tidy(root) && IsRendering(root, lock, rendered)
    ensures WithHeaders(rendered, lock) == rendered
  {
    var services, made, position, entry := RenderingParts(root, lock, rendered);
    HeadersFind(root, lock, "");
    SetStrSame(rendered, "schema", lock.schema);
    SetStrSame(rendered, "env", lock.env);
  }

  lemma PlacedAgain(old_: seq<Entry>, lock: EnvironmentLock, made: seq<Entry>, position: Option<nat>)
    requires Tidy(old_) && ServicesMade(old_, lock, made) && IsMinPosition(made, position)
    ensures var placed := AllAt(made, position);
            ServicesMade(placed, lock, placed) && IsMinPosition(placed, position) && AllAt(placed, position) == placed
  {
    MadeAgain(old_, lock, made, position);
    PlacedPosition(old_, lock, made, position);
    PlacedTwice(made, position);
  }

  /** A rendered document is its own rendering. */
  lemma RenderingIdempotent(root: seq<Entry>, lock: EnvironmentLock, rendered: seq<Entry>)
    requires Tidy(root) && IsRendering(root, lock, rendered)
    ensures IsRendering(rendered, lock, rendered)
  {
    var services, made, position, entry := RenderingParts(root, lock, rendered);
    HeadersAgain(root, lock, rendered);
    PartsAgain(rendered, lock, services, made, position, entry);
  }

  lemma PartsAgain(rendered: seq<Entry>, lock: EnvironmentLock, services: Table, made: seq<Entry>,
                   position: Option<nat>, entry: Entry)
    requires WithHeaders(rendered, lock) == rendered && Find(rendered, "services") == Some(entry)
    requires Tidy(services.entries) && ServicesMade(services.entries, lock, made) && IsMinPosition(made, position)
    requires !services.dotted && entry.key == "services" && entry.item == Header(Finished(services, made, position))
    ensures IsRendering(rendered, lock, rendered)
  {
    PlacedAgain(services.entries, lock, made, position);
    StandardAgain(services, made, position, entry, rendered);
    SamePut(rendered, entry);
    FromParts(rendered, lock, entry, AllAt(made, position), position);
  }

  lemma FromParts(root: seq<Entry>, lock: EnvironmentLock, entry: Entry, made: seq<Entry>, position: Option<nat>)
    requires WithHeaders(root, lock) == root && ServicesOf(root) == entry && entry.item.Header?
    requires ServicesMade(entry.item.table.entries, lock, made) && IsMinPosition(made, position)
    requires entry.item.table == Finished(entry.item.table, made, position) && Put(root, entry) == root
    ensures IsRendering(root, lock, root)
  {
    assert entry.(item := Header(Finished(entry.item.table, made, position))) == entry;
    assert RendersAs(root, lock, made, position, root);
  }

  lemma StandardAgain(services: Table, made: seq<Entry>, position: Option<nat>, entry: Entry, rendered: seq<Entry>)
    requires Find(rendered, "services") == Some(entry) && !services.dotted && entry.key == "services"
    requires entry.item == Header(Finished(services, made, position))
    ensures ServicesOf(rendered) == entry
    ensures AllAt(AllAt(made, position), position) == AllAt(made, position) ==>
              entry.item.table == Finished(entry.item.table, AllAt(made, position), position)
  {
  }

  // ---------- the store ----------

  /** A lock file's text: a TOML document, or something that does not parse. */
  datatype Text = Document(root: seq<Entry>) | Unparsable(text: string)

  ghost predicate TidyText(text: Text) {
    text.Document? ==> Tidy(text.root)
  }

  function DecodeText(text: Text): Option<EnvironmentLock> {
    match text
    case Document(root) => Decode(root)
    case Unparsable(_) => None
  }

  datatype WriteOutcome = Written | Unchanged

  class GitLockStore {
    /** The lock file of each environment that has one. */
    var files: map<string, Text>

    constructor ()
      ensures files == map[]
    {
      files := map[];
    }

    ghost predicate Valid()
      reads this
    {
      forall env | env in files :: TidyText(files[env])
    }

    function Stored(env: string): Option<EnvironmentLock>
      reads this
    {
      if env in files then DecodeText(files[env]) else None
    }

    /** Leaves the store holding exactly this lock; reports Unchanged, touching nothing, exactly when
        it already did. */
    method WriteIfChanged(lock: EnvironmentLock, order: seq<string>) returns (outcome: WriteOutcome)
      requires Valid()
      requires forall name :: name in order <==> name in lock.services
      requires forall i, j | 0 <= i < j < |order| :: order[i] != order[j]
      modifies this
      ensures Valid()
      ensures Stored(lock.env) == Some(lock)
      ensures outcome == Unchanged <==> old(Stored(lock.env)) == Some(lock)
      ensures outcome == Unchanged ==> files == old(files)
      ensures outcome == Written ==> exists rendered ::
                && files == old(files)[lock.env := Document(rendered)]
                && IsRendering(if lock.env in old(files) && old(files)[lock.env].Document?
                               then old(files)[lock.env].root else [], lock, rendered)
    {
      if lock.env in files && DecodeText(files[lock.env]) == Some(lock) {
        return Unchanged;
      }
      var existing := if lock.env in files && files[lock.env].Document? then Some(files[lock.env].root) else None;
      ghost var root := if existing.Some? then existing.value else [];
      assert Tidy(root) by { if lock.env in files { assert TidyText(files[lock.env]); } }
      var contents := RenderLock(existing, lock, order);
      RenderedDecodes(root, lock, contents);
      if lock.env in files && files[lock.env] == Document(contents) {
        return Unchanged;
      }
      RenderedTidy(root, lock, contents);
      files := files[lock.env := Document(contents)];
      return Written;
    }
  }

  lemma RenderedTidy(root: seq<Entry>, lock: EnvironmentLock, rendered: seq<Entry>)
    requires Tidy(root) && IsRendering(root, lock, rendered)
    ensures Tidy(rendered)
  {
    var services, made, position, entry := RenderingParts(root, lock, rendered);
    var placed := AllAt(made, position);
    PlacedFind(made, position, "");
    SortedUnique(placed);
    forall i | 0 <= i < |placed| ensures TidyItem(placed[i].item) {
      MadeIsHeader(services.entries, lock, made, i);
      ServiceTidy(services.entries, made[i].key, lock.services[made[i].key]);
    }
    assert TidyItem(entry.item);
    PutTidy(WithHeaders(root, lock), entry);
  }

  lemma ServiceTidy(services: seq<Entry>, name: string, svc: ServiceLock)
    requires Tidy(services)
    ensures Tidy(ServiceEntry(services, name, svc).item.table.entries)
  {
    NormalisedTidy(services, name, false);
    var entries := Normalised(services, name, false).item.table.entries;
    SetStrTidy(entries, "version", svc.version);
    SetStrTidy(SetStr(entries, "version", svc.version), "image", svc.image);
    SetStrTidy(SetStr(SetStr(entries, "version", svc.version), "image", svc.image), "git_sha", svc.gitSha);
  }
}
