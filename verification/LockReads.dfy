/** What a lock file says: which documents decode, and to which lock. */
module LockReads {
  import opened Options
  import opened LockDocument
  import opened LockRender
  import opened LockStore

  /** A table in any layout with the three fields as texts; it may hold other keys. */
  ghost predicate ServiceReads(item: Item, svc: ServiceLock) {
    match item
    case Header(table) => FieldsRead(table.entries, svc)
    case Inline(pairs) => FieldsRead(pairs, svc)
    case _ => false
  }

  ghost predicate FieldsRead(entries: seq<Entry>, svc: ServiceLock) {
    && IsStr(Get(entries, "version"), svc.version)
    && IsStr(Get(entries, "image"), svc.image)
    && IsStr(Get(entries, "git_sha"), svc.gitSha)
  }

  /** The entries list exactly these services. */
  ghost predicate ServicesRead(entries: seq<Entry>, services: map<string, ServiceLock>) {
    && (forall name :: name in services <==> Find(entries, name).Some?)
    && (forall name | name in services :: ServiceReads(Find(entries, name).value.item, services[name]))
  }

  /** The document says this lock; without a services table it locks none. */
  ghost predicate Reads(root: seq<Entry>, lock: EnvironmentLock) {
    && IsStr(Get(root, "schema"), lock.schema) && IsStr(Get(root, "env"), lock.env)
    && match Get(root, "services")
       case None => lock.services == map[]
       case Some(Header(table)) => ServicesRead(table.entries, lock.services)
       case Some(Inline(pairs)) => ServicesRead(pairs, lock.services)
       case _ => false
  }

  lemma StrReads(entries: seq<Entry>, key: string)
    ensures forall text: string :: StrAt(entries, key) == Some(text) <==> IsStr(Get(entries, key), text)
  {
  }

  lemma ServiceDecodes(item: Item)
    ensures forall svc :: DecodeService(item) == Some(svc) <==> ServiceReads(item, svc)
  {
    if Pairs(item).Some? {
      var pairs := Pairs(item).value;
      StrReads(pairs, "version");
      StrReads(pairs, "image");
      StrReads(pairs, "git_sha");
      forall svc: ServiceLock ensures DecodeService(item) == Some(svc) <==> FieldsRead(pairs, svc) {}
    }
  }

  lemma FindBehind(entries: seq<Entry>, name: string)
    requires Unique(entries) && entries != []
    ensures var last := entries[|entries| - 1];
            Find(entries, name) == if name == last.key then Some(last) else Find(entries[..|entries| - 1], name)
  {
    var last, front := entries[|entries| - 1], entries[..|entries| - 1];
    if name == last.key {
      FindAt(entries, |entries| - 1);
    } else if Find(front, name).Some? {
      var i := IndexOf(front, name).value;
      assert entries[i] == front[i];
      FindAt(entries, i);
    } else {
      assert forall i | 0 <= i < |entries| :: entries[i].key != name by {
        assert forall i | 0 <= i < |front| :: entries[i] == front[i];
      }
    }
  }

  lemma {:induction false} DecodedReads(entries: seq<Entry>)
    requires Unique(entries) && DecodeServices(entries).Some?
    ensures ServicesRead(entries, DecodeServices(entries).value)
  {
    if entries != [] {
      var last, front := entries[|entries| - 1], entries[..|entries| - 1];
      DecodedReads(front);
      ServiceDecodes(last.item);
      forall name ensures Find(entries, name) == if name == last.key then Some(last) else Find(front, name) {
        FindBehind(entries, name);
      }
    }
  }

  lemma FrontLacks(entries: seq<Entry>)
    requires Unique(entries) && entries != []
    ensures Find(entries[..|entries| - 1], entries[|entries| - 1].key).None?
  {
    var front := entries[..|entries| - 1];
    assert forall i | 0 <= i < |front| :: front[i] == entries[i];
  }

  /** The front of the list reads as it should under this name, once the last service is left out. */
  ghost predicate FrontReadsAt(entries: seq<Entry>, services: map<string, ServiceLock>, name: string)
    requires entries != []
  {
    var others, front := services - {entries[|entries| - 1].key}, entries[..|entries| - 1];
    && (name in others <==> Find(front, name).Some?)
    && (name in others ==> ServiceReads(Find(front, name).value.item, others[name]))
  }

  lemma OthersListed(entries: seq<Entry>, services: map<string, ServiceLock>, name: string)
    requires Unique(entries) && entries != [] && ServicesRead(entries, services)
    ensures FrontReadsAt(entries, services, name)
  {
    FindBehind(entries, name);
    FrontLacks(entries);
  }

  lemma FrontReads(entries: seq<Entry>, services: map<string, ServiceLock>)
    requires Unique(entries) && entries != [] && ServicesRead(entries, services)
    ensures var last := entries[|entries| - 1];
            && last.key in services && ServiceReads(last.item, services[last.key])
            && ServicesRead(entries[..|entries| - 1], services - {last.key})
  {
    FindBehind(entries, entries[|entries| - 1].key);
    var others, front := services - {entries[|entries| - 1].key}, entries[..|entries| - 1];
    forall name ensures name in others <==> Find(front, name).Some? {
      OthersListed(entries, services, name);
      assert FrontReadsAt(entries, services, name);
    }
    forall name | name in others ensures ServiceReads(Find(front, name).value.item, others[name]) {
      OthersListed(entries, services, name);
      assert FrontReadsAt(entries, services, name);
    }
  }

  lemma NoneRead(services: map<string, ServiceLock>)
    requires ServicesRead([], services)
    ensures services == map[]
  {
    forall name ensures name !in services { assert Find([], name).None?; }
  }

  lemma PutBack(services: map<string, ServiceLock>, name: string)
    requires name in services
    ensures services == (services - {name})[name := services[name]]
  {
  }

  lemma DecodesOn(entries: seq<Entry>, others: map<string, ServiceLock>, svc: ServiceLock)
    requires entries != [] && DecodeServices(entries[..|entries| - 1]) == Some(others)
    requires DecodeService(entries[|entries| - 1].item) == Some(svc)
    ensures DecodeServices(entries) == Some(others[entries[|entries| - 1].key := svc])
  {
  }

  lemma {:induction false} ReadDecodes(entries: seq<Entry>, services: map<string, ServiceLock>)
    requires Unique(entries) && ServicesRead(entries, services)
    ensures DecodeServices(entries) == Some(services)
  {
    if entries == [] {
      NoneRead(services);
    } else {
      var last := entries[|entries| - 1];
      FrontReads(entries, services);
      ReadDecodes(entries[..|entries| - 1], services - {last.key});
      ServiceDecodes(last.item);
      DecodesOn(entries, services - {last.key}, services[last.key]);
      PutBack(services, last.key);
    }
  }

  lemma ServicesDecode(entries: seq<Entry>, services: map<string, ServiceLock>)
    requires Unique(entries)
    ensures DecodeServices(entries) == Some(services) <==> ServicesRead(entries, services)
  {
    if DecodeServices(entries) == Some(services) { DecodedReads(entries); }
    if ServicesRead(entries, services) { ReadDecodes(entries, services); }
  }

  /** A well-formed document decodes to a lock exactly if it says it. */
  lemma DecodesExactly(root: seq<Entry>, lock: EnvironmentLock)
    requires Tidy(root)
    ensures Decode(root) == Some(lock) <==> Reads(root, lock)
  {
    StrReads(root, "schema");
    StrReads(root, "env");
    if Get(root, "services").Some? {
      var item := Get(root, "services").value;
      assert TidyItem(item) by { assert TidyItem(root[IndexOf(root, "services").value].item); }
      match item
      case Header(table) =>
        assert Tidy(table.entries);
        ServicesDecode(table.entries, lock.services);
      case Inline(pairs) =>
        assert Tidy(pairs);
        ServicesDecode(pairs, lock.services);
      case _ =>
    }
  }
}
