/** What a rendering keeps of the document it edits: formatting, other keys and places in the file. */
module LockKeeps {
  import opened Options
  import opened LockDocument
  import opened LockRender
  import opened LockStore

  const FIELDS := {"version", "image", "git_sha"}

  /** An entry of an inline table on a line of its own: it loses the whitespace around key and value. */
  predicate OnOwnLine(inline_: Entry, own: Entry) {
    && own.key == inline_.key && own.keyFmt == Fmt("", inline_.keyFmt.repr)
    && match inline_.item
       case Str(text, fmt) => own.item == Str(text, Fmt("", fmt.repr))
       case other => own.item == other
  }

  /** The entries that a table holds, in whatever layout it is written. */
  ghost predicate HoldsEntries(item: Item, entries: seq<Entry>) {
    match item
    case Header(table) => entries == table.entries
    case Inline(pairs) => |entries| == |pairs| && forall i | 0 <= i < |pairs| :: OnOwnLine(pairs[i], entries[i])
    case _ => false
  }

  /** The services a document lists; none when it has no services table. */
  ghost predicate Lists(root: seq<Entry>, listed: seq<Entry>) {
    match Find(root, "services")
    case Some(e) => if e.item.Header? || e.item.Inline? then HoldsEntries(e.item, listed) else listed == []
    case None => listed == []
  }

  lemma HoldsOne(item: Item, a: seq<Entry>, b: seq<Entry>)
    requires HoldsEntries(item, a) && HoldsEntries(item, b)
    ensures a == b
  {
    if item.Inline? {
      forall i | 0 <= i < |a| ensures a[i] == b[i] {
        assert OnOwnLine(item.pairs[i], a[i]) && OnOwnLine(item.pairs[i], b[i]);
      }
    }
  }

  lemma AsTableHolds(item: Item, implicit: bool)
    requires item.Header? || item.Inline?
    ensures HoldsEntries(item, AsTable(item, implicit).entries)
  {
  }

  /** Entry k is as it was if its text was right, and holds the right text in any case. */
  ghost predicate Updates(before: seq<Entry>, after: seq<Entry>, key: string, text: string) {
    && IsStr(Get(after, key), text)
    && (IsStr(Get(before, key), text) ==> Find(after, key) == Find(before, key))
  }

  /** Exactly the three fields are updated, each only if its text differs. */
  ghost predicate UpdatesFields(before: seq<Entry>, after: seq<Entry>, svc: ServiceLock) {
    && OnlyChanges(before, after, FIELDS)
    && Updates(before, after, "version", svc.version)
    && Updates(before, after, "image", svc.image)
    && Updates(before, after, "git_sha", svc.gitSha)
  }

  lemma SetUpdates(entries: seq<Entry>, key: string, text: string)
    requires Unique(entries)
    ensures Unique(SetStr(entries, key, text)) && Updates(entries, SetStr(entries, key, text), key, text)
  {
    SetStrFind(entries, key, text, key);
  }

  lemma ChangesAdd(a: seq<Entry>, b: seq<Entry>, c: seq<Entry>, first: set<string>, second: set<string>)
    requires OnlyChanges(a, b, first) && OnlyChanges(b, c, second)
    ensures OnlyChanges(a, c, first + second)
  {
  }

  lemma FieldsUpdate(table: Table, svc: ServiceLock)
    requires Unique(table.entries)
    ensures UpdatesFields(table.entries, WithFields(table, svc).entries, svc)
  {
    var a := SetStr(table.entries, "version", svc.version);
    var b := SetStr(a, "image", svc.image);
    var c := SetStr(b, "git_sha", svc.gitSha);
    SetStrChanges(table.entries, "version", svc.version);
    SetStrChanges(a, "image", svc.image);
    SetStrChanges(b, "git_sha", svc.gitSha);
    ChangesAdd(table.entries, a, b, {"version"}, {"image"});
    ChangesAdd(table.entries, b, c, {"version"} + {"image"}, {"git_sha"});
    assert {"version"} + {"image"} + {"git_sha"} == FIELDS;
    FieldsFound(table, svc);
  }

  lemma FieldsFound(table: Table, svc: ServiceLock)
    requires Unique(table.entries)
    ensures var after := WithFields(table, svc).entries;
            && Updates(table.entries, after, "version", svc.version)
            && Updates(table.entries, after, "image", svc.image)
            && Updates(table.entries, after, "git_sha", svc.gitSha)
  {
    var a := SetStr(table.entries, "version", svc.version);
    var b := SetStr(a, "image", svc.image);
    SetUpdates(table.entries, "version", svc.version);
    SetUpdates(a, "image", svc.image);
    SetUpdates(b, "git_sha", svc.gitSha);
    SetStrFind(table.entries, "version", svc.version, "image");
    SetStrFind(table.entries, "version", svc.version, "git_sha");
    SetStrFind(a, "image", svc.image, "version");
    SetStrFind(a, "image", svc.image, "git_sha");
    SetStrFind(b, "git_sha", svc.gitSha, "version");
    SetStrFind(b, "git_sha", svc.gitSha, "image");
  }

  // ---------- one service ----------

  lemma ServicesAre(root: seq<Entry>, lock: EnvironmentLock, listed: seq<Entry>)
    requires Unique(root) && Lists(root, listed)
    ensures ServicesOf(WithHeaders(root, lock)).item.table.entries == listed
  {
    HeadersFind(root, lock, "services");
    if Find(root, "services").Some? {
      var item := Find(root, "services").value.item;
      if item.Header? || item.Inline? {
        AsTableHolds(item, true);
        HoldsOne(item, listed, AsTable(item, true).entries);
      }
    }
  }

  /** The rendered entry of a service, made from its old one. */
  lemma RenderedService(root: seq<Entry>, lock: EnvironmentLock, rendered: seq<Entry>, name: string,
                        listed: seq<Entry>) returns (position: Option<nat>)
    requires Tidy(root) && IsRendering(root, lock, rendered) && name in lock.services && Lists(root, listed)
    ensures Tidy(listed)
    ensures Find(rendered, "services").Some? && Find(rendered, "services").value.item.Header?
    ensures Find(Find(rendered, "services").value.item.table.entries, name)
         == Some(AtPosition(ServiceEntry(listed, name, lock.services[name]), position))
  {
    var table, made, p, entry := RenderingParts(root, lock, rendered);
    position := p;
    ServicesAre(root, lock, listed);
    MadeHas(table.entries, lock, made, name);
    PlacedFind(made, p, name);
  }

  /** What becomes of a locked service whose old entry is a table, in any layout: its other keys keep place, content and
      formatting, and of its three fields those that are right already stay as they are. A standard table keeps all
      else but its position, a dotted one also its whitespace and comments. */
  ghost predicate KeepsService(old_: Entry, new_: Entry, svc: ServiceLock) {
    && new_.key == old_.key && new_.item.Header? && !new_.item.table.dotted
    && (exists before: seq<Entry> :: HoldsEntries(old_.item, before)
                                     && UpdatesFields(before, new_.item.table.entries, svc))
    && (old_.item.Header? ==> new_.item.table.decor == old_.item.table.decor)
    && (old_.item.Header? && !old_.item.table.dotted ==>
          new_.keyFmt == old_.keyFmt && new_.item.table.implicit == old_.item.table.implicit)
    && (!(old_.item.Header? && !old_.item.table.dotted) ==>
          new_.keyFmt == Fmt("", "") && !new_.item.table.implicit)
  }

  lemma EntryKeeps(services: seq<Entry>, name: string, svc: ServiceLock, old_: Entry, position: Option<nat>)
    requires Tidy(services) && Find(services, name) == Some(old_) && (old_.item.Header? || old_.item.Inline?)
    ensures KeepsService(old_, AtPosition(ServiceEntry(services, name, svc), position), svc)
  {
    NormalisedTidy(services, name, false);
    FindGives(services, name);
    var table := Normalised(services, name, false).item.table;
    AsTableHolds(old_.item, false);
    FieldsUpdate(table, svc);
    assert HoldsEntries(old_.item, table.entries);
    assert ServiceEntry(services, name, svc).item.table.entries == WithFields(table, svc).entries;
  }

  lemma ServiceKept(root: seq<Entry>, lock: EnvironmentLock, rendered: seq<Entry>, name: string,
                    listed: seq<Entry>, old_: Entry)
    requires Tidy(root) && IsRendering(root, lock, rendered) && name in lock.services && Lists(root, listed)
    requires Find(listed, name) == Some(old_) && (old_.item.Header? || old_.item.Inline?)
    ensures Find(rendered, "services").Some? && Find(rendered, "services").value.item.Header?
    ensures var entries := Find(rendered, "services").value.item.table.entries;
            Find(entries, name).Some? && KeepsService(old_, Find(entries, name).value, lock.services[name])
  {
    var position := RenderedService(root, lock, rendered, name, listed);
    EntryKeeps(listed, name, lock.services[name], old_, position);
  }

  /** A service that had no table gets one under its own header with just the three fields, in order. */
  lemma ServiceAdded(root: seq<Entry>, lock: EnvironmentLock, rendered: seq<Entry>, name: string,
                     listed: seq<Entry>)
    requires Tidy(root) && IsRendering(root, lock, rendered) && name in lock.services && Lists(root, listed)
    requires Find(listed, name).Some? ==>
               !Find(listed, name).value.item.Header? && !Find(listed, name).value.item.Inline?
    ensures Find(rendered, "services").Some? && Find(rendered, "services").value.item.Header?
    ensures var entries := Find(rendered, "services").value.item.table.entries;
            var svc := lock.services[name];
            exists position :: Find(entries, name) == Some(Fresh(name, svc, position))
  {
    var position := RenderedService(root, lock, rendered, name, listed);
    FreshEntry(listed, name, lock.services[name], position);
  }

  /** The place in the file that a service's old table has. */
  function OldPosition(listed: seq<Entry>, name: string): Option<nat> {
    match Find(listed, name)
    case Some(e) => (match e.item case Header(table) => table.position case _ => None)
    case None => None
  }

  /** All services come where the first of the kept ones stood, which is nowhere in particular if all are new. */
  lemma FirstPlaceKept(root: seq<Entry>, lock: EnvironmentLock, rendered: seq<Entry>, listed: seq<Entry>)
    returns (position: Option<nat>)
    requires Tidy(root) && IsRendering(root, lock, rendered) && Lists(root, listed)
    ensures Find(rendered, "services").Some? && Find(rendered, "services").value.item.Header?
    ensures var entries := Find(rendered, "services").value.item.table.entries;
            forall i | 0 <= i < |entries| :: entries[i].item.Header? && entries[i].item.table.position == position
    ensures forall name | name in lock.services && OldPosition(listed, name).Some? ::
              position.Some? && position.value <= OldPosition(listed, name).value
    ensures position.Some? ==> exists name | name in lock.services :: OldPosition(listed, name) == position
  {
    var table, made, p, entry := RenderingParts(root, lock, rendered);
    position := p;
    ServicesAre(root, lock, listed);
    PlaceIsFirst(listed, lock, made, p);
  }

  lemma MadePosition(listed: seq<Entry>, lock: EnvironmentLock, made: seq<Entry>, e: Entry)
    requires ServicesMade(listed, lock, made) && e in made
    ensures e.key in lock.services && e.item.Header? && PositionOf(e.item) == OldPosition(listed, e.key)
  {
    var i :| 0 <= i < |made| && made[i] == e;
    MadeIsHeader(listed, lock, made, i);
  }

  lemma PlaceIsFirst(listed: seq<Entry>, lock: EnvironmentLock, made: seq<Entry>, p: Option<nat>)
    requires ServicesMade(listed, lock, made) && IsMinPosition(made, p)
    ensures forall e | e in AllAt(made, p) :: e.item.Header? && e.item.table.position == p
    ensures forall name | name in lock.services && OldPosition(listed, name).Some? ::
              p.Some? && p.value <= OldPosition(listed, name).value
    ensures p.Some? ==> exists name | name in lock.services :: OldPosition(listed, name) == p
  {
    forall e | e in made ensures e.item.Header? { MadePosition(listed, lock, made, e); }
    forall name | name in lock.services && OldPosition(listed, name).Some?
      ensures p.Some? && p.value <= OldPosition(listed, name).value {
      MadeHas(listed, lock, made, name);
      FindGives(made, name);
      MadePosition(listed, lock, made, Find(made, name).value);
    }
    if p.Some? {
      var e :| e in made && PositionOf(e.item) == p;
      MadePosition(listed, lock, made, e);
    }
  }

  function Plain(key: string, text: string): Entry {
    Entry(key, Fmt("", ""), Str(text, Fmt("", "")))
  }

  function Fresh(name: string, svc: ServiceLock, position: Option<nat>): Entry {
    Entry(name, Fmt("", ""),
          Header(Table(false, false, position, "",
                       [Plain("version", svc.version), Plain("image", svc.image), Plain("git_sha", svc.gitSha)])))
  }

  lemma FreshEntry(services: seq<Entry>, name: string, svc: ServiceLock, position: Option<nat>)
    requires Find(services, name).Some? ==>
               !Find(services, name).value.item.Header? && !Find(services, name).value.item.Inline?
    ensures AtPosition(ServiceEntry(services, name, svc), position) == Fresh(name, svc, position)
  {
    var a := SetStr([], "version", svc.version);
    assert a == [Plain("version", svc.version)];
    var b := SetStr(a, "image", svc.image);
    assert b == [Plain("version", svc.version), Plain("image", svc.image)];
    var c := SetStr(b, "git_sha", svc.gitSha);
    assert c == [Plain("version", svc.version), Plain("image", svc.image), Plain("git_sha", svc.gitSha)];
    assert ServiceEntry(services, name, svc).item.table.entries == c;
  }

  // ---------- the rest of the document ----------

  /** schema and env stay as they are when they are right already. */
  lemma HeadersKept(root: seq<Entry>, lock: EnvironmentLock, rendered: seq<Entry>)
    requires Tidy(root) && IsRendering(root, lock, rendered)
    ensures Updates(root, rendered, "schema", lock.schema) && Updates(root, rendered, "env", lock.env)
  {
    var services, made, position, entry := RenderingParts(root, lock, rendered);
    var a := SetStr(root, "schema", lock.schema);
    SetUpdates(root, "schema", lock.schema);
    SetUpdates(a, "env", lock.env);
    SetStrFind(root, "schema", lock.schema, "env");
    SetStrFind(a, "env", lock.env, "schema");
  }

  /** A standard services table keeps its key, whitespace, comments and place, and stays implicit unless it is empty. */
  lemma ServicesTableKept(root: seq<Entry>, lock: EnvironmentLock, rendered: seq<Entry>, services: Entry)
    requires Tidy(root) && IsRendering(root, lock, rendered)
    requires Find(root, "services") == Some(services) && services.item.Header? && !services.item.table.dotted
    ensures Find(rendered, "services").Some? && Find(rendered, "services").value.item.Header?
    ensures var new_ := Find(rendered, "services").value;
            var before, after := services.item.table, new_.item.table;
            && new_.keyFmt == services.keyFmt && after.decor == before.decor && after.position == before.position
            && !after.dotted && after.implicit == (before.implicit && lock.services != map[])
  {
    var table, made, position, entry := RenderingParts(root, lock, rendered);
    StandardKept(root, lock, services);
    MadeEmpty(table.entries, lock, made);
  }

  lemma StandardKept(root: seq<Entry>, lock: EnvironmentLock, services: Entry)
    requires Unique(root)
    requires Find(root, "services") == Some(services) && services.item.Header? && !services.item.table.dotted
    ensures ServicesOf(WithHeaders(root, lock)) == services
  {
    HeadersFind(root, lock, "services");
    FindGives(root, "services");
  }

  lemma MadeEmpty(old_: seq<Entry>, lock: EnvironmentLock, made: seq<Entry>)
    requires ServicesMade(old_, lock, made)
    ensures made == [] <==> lock.services == map[]
  {
    if made != [] { assert made[0] in made; }
    if name :| name in lock.services { MadeHas(old_, lock, made, name); }
  }
}
